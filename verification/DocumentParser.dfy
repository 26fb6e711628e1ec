/** The parser as it runs: loops over a moving line index, block objects with identifiers, and a
    stack of open list items whose children lists grow in place. */
module DocumentParser {
  import opened Text
  import opened DocumentTypes
  import opened InlineParser
  import opened LineRecognizers
  import opened BlockParser
  import opened ListForest

  /** Hands out 1, 2, 3, ... */
  class IdFactory {
    var counter: nat

    constructor ()
      ensures counter == 0
    {
      counter := 0;
    }

    method Next() returns (id: nat)
      modifies this
      ensures counter == old(counter) + 1 && id == counter
    {
      counter := counter + 1;
      id := counter;
    }
  }

  class BlockNode {
    const id: nat
    const shape: Shape
    var children: seq<BlockNode>

    constructor (id: nat, shape: Shape)
      ensures this.id == id && this.shape == shape && children == []
    {
      this.id := id;
      this.shape := shape;
      children := [];
    }
  }

  // ---- What block objects stand for ----

  /** The object is the root of a tree of objects that spells out `block`, with identifiers
      `first`, `first + 1`, ... from parent to children and from left to right. */
  ghost predicate Represents(node: BlockNode, block: Block, first: nat, heap: set<BlockNode>)
    reads heap
    decreases block
  {
    && node in heap && node.id == first && node.shape == block.shape
    && RepresentsAll(node.children, block.children, first + 1, heap)
  }

  ghost predicate RepresentsAll(nodes: seq<BlockNode>, blocks: seq<Block>, first: nat, heap: set<BlockNode>)
    reads heap
    decreases blocks
  {
    if blocks == [] then nodes == []
    else
      && nodes != []
      && Represents(nodes[0], blocks[0], first, heap)
      && RepresentsAll(nodes[1..], blocks[1..], first + Size(blocks[0]), heap)
  }

  lemma {:induction false} RepresentsMore(nodes: seq<BlockNode>, blocks: seq<Block>, first: nat,
                                          heap: set<BlockNode>, more: set<BlockNode>)
    requires RepresentsAll(nodes, blocks, first, heap) && heap <= more
    ensures RepresentsAll(nodes, blocks, first, more)
    decreases blocks
  {
    if blocks != [] {
      RepresentsMore(nodes[0].children, blocks[0].children, first + 1, heap, more);
      RepresentsMore(nodes[1..], blocks[1..], first + Size(blocks[0]), heap, more);
    }
  }

  lemma {:induction false} RepresentsConcat(a: seq<BlockNode>, x: seq<Block>, b: seq<BlockNode>, y: seq<Block>,
                                            first: nat, heap: set<BlockNode>)
    requires RepresentsAll(a, x, first, heap)
    requires RepresentsAll(b, y, first + SizeAll(x), heap)
    ensures RepresentsAll(a + b, x + y, first, heap)
    decreases x
  {
    hide Represents;
    if x == [] {
      assert a + b == b && x + y == y;
    } else {
      assert (a + b)[1..] == a[1..] + b && (x + y)[1..] == x[1..] + y;
      RepresentsConcat(a[1..], x[1..], b, y, first + Size(x[0]), heap);
    }
  }

  /** The identifiers of the objects, parents before children, in order. */
  ghost function PreorderIds(nodes: seq<BlockNode>, blocks: seq<Block>, first: nat, heap: set<BlockNode>): seq<nat>
    requires RepresentsAll(nodes, blocks, first, heap)
    reads heap
    decreases blocks
  {
    if blocks == [] then []
    else
      assert Represents(nodes[0], blocks[0], first, heap);
      [nodes[0].id]
      + PreorderIds(nodes[0].children, blocks[0].children, first + 1, heap)
      + PreorderIds(nodes[1..], blocks[1..], first + Size(blocks[0]), heap)
  }

  function CountFrom(first: nat, n: nat): (r: seq<nat>)
    ensures |r| == n
  {
    seq(n, i requires 0 <= i => first + i)
  }

  /** Read in preorder, the identifiers count up without a gap. */
  lemma {:induction false} IdsCountUp(nodes: seq<BlockNode>, blocks: seq<Block>, first: nat, heap: set<BlockNode>)
    requires RepresentsAll(nodes, blocks, first, heap)
    ensures PreorderIds(nodes, blocks, first, heap) == CountFrom(first, SizeAll(blocks))
    decreases blocks
  {
    if blocks != [] {
      var n := SizeAll(blocks[0].children);
      IdsCountUp(nodes[0].children, blocks[0].children, first + 1, heap);
      IdsCountUp(nodes[1..], blocks[1..], first + Size(blocks[0]), heap);
      assert [first] + CountFrom(first + 1, n) + CountFrom(first + 1 + n, SizeAll(blocks[1..]))
          == CountFrom(first, SizeAll(blocks));
    }
  }

  lemma LeafRepresents(node: BlockNode, shape: Shape, first: nat)
    requires node.id == first && node.shape == shape && node.children == []
    ensures RepresentsAll([node], [Leaf(shape)], first, {node})
    ensures SizeAll([Leaf(shape)]) == 1
  {
    assert SizeAll([Leaf(shape)]) == Size(Leaf(shape)) + SizeAll([Leaf(shape)][1..]);
  }

  /** What a parsing step delivers: objects for the blocks of the step, and the next line. The
      step started when `before` identifiers had been given out. */
  ghost predicate Delivers(nodes: seq<BlockNode>, next: int, step: Step, start: nat, before: nat,
                           ids: IdFactory, heap: set<BlockNode>)
    reads ids, heap
  {
    && next == start + step.used
    && ids.counter == before + SizeAll(step.blocks)
    && RepresentsAll(nodes, step.blocks, before + 1, heap)
  }

  // ---- Counting loops ----

  lemma CountStep(p: string -> bool, lines: seq<string>, start: nat, index: nat)
    requires start <= index < |lines| && p(lines[index])
    ensures CountWhile(p, lines[index..]) == 1 + CountWhile(p, lines[index + 1..])
  {
    assert lines[index..][0] == lines[index] && lines[index..][1..] == lines[index + 1..];
  }

  lemma CountDone(p: string -> bool, lines: seq<string>, index: nat)
    requires index <= |lines| && (index < |lines| ==> !p(lines[index]))
    ensures CountWhile(p, lines[index..]) == 0
  {
  }

  lemma {:induction false} TrimAllAppend(lines: seq<string>, line: string)
    ensures TrimAll(lines + [line]) == TrimAll(lines) + [Trim(line)]
  {
    hide Trim;
    if lines == [] {
      assert lines + [line] == [line];
    } else {
      assert (lines + [line])[1..] == lines[1..] + [line];
      TrimAllAppend(lines[1..], line);
    }
  }

  lemma {:induction false} UnquoteAllAppend(lines: seq<string>, line: string)
    ensures UnquoteAll(lines + [line]) == UnquoteAll(lines) + [UnquoteLine(line)]
  {
    hide UnquoteLine;
    if lines == [] {
      assert lines + [line] == [line];
    } else {
      assert (lines + [line])[1..] == lines[1..] + [line];
      UnquoteAllAppend(lines[1..], line);
    }
  }

  lemma {:induction false} CellsOfAllAppend(lines: seq<string>, line: string)
    ensures CellsOfAll(lines + [line]) == CellsOfAll(lines) + [TableCells(line)]
  {
    hide TableCells;
    if lines == [] {
      assert lines + [line] == [line];
    } else {
      assert (lines + [line])[1..] == lines[1..] + [line];
      CellsOfAllAppend(lines[1..], line);
    }
  }

  lemma BodyOfFence(fence: Fence)
    ensures forall line :: FenceBody(fence)(line) == !IsFenceEnd(line, fence)
  {
  }

  lemma LinePredicates()
    ensures forall line :: QuoteLines()(line) == IsBlockquote(line)
    ensures forall line :: ParagraphLines()(line) == !StartsBlock(line)
    ensures forall line :: TableLines()(line) == IsTableDataLine(line)
    ensures forall line :: IsBlank(line) ==> StartsBlock(line)
  {
    hide IsBlockquote, IsTableDataLine, IsBlank, MatchFenceStart, MatchHeading, MatchListItem, IsHorizontalRule,
      MatchStandaloneImage;
  }

  lemma NoLines(lines: seq<string>, start: nat)
    requires start <= |lines|
    ensures UnquoteAll(lines[start..start]) == [] && TrimAll(lines[start..start]) == []
  {
  }

  // ---- Leaf blocks ----

  method CreateBlock(shape: Shape, ids: IdFactory) returns (node: BlockNode, ghost heap: set<BlockNode>)
    modifies ids
    ensures fresh(node) && heap == {node}
    ensures ids.counter == old(ids.counter) + SizeAll([Leaf(shape)])
    ensures RepresentsAll([node], [Leaf(shape)], old(ids.counter) + 1, heap)
  {
    var id := ids.Next();
    node := new BlockNode(id, shape);
    heap := {node};
    LeafRepresents(node, shape, id);
  }

  /** A step with a single leaf block, once its object exists. */
  lemma DeliversLeaf(node: BlockNode, next: nat, step: Step, shape: Shape, start: nat, before: nat,
                     ids: IdFactory, heap: set<BlockNode>)
    requires next >= start && step == Step([Leaf(shape)], next - start)
    requires ids.counter == before + SizeAll([Leaf(shape)])
    requires RepresentsAll([node], [Leaf(shape)], before + 1, heap)
    ensures Delivers([node], next, step, start, before, ids, heap)
  {
  }

  method ParseCodeBlock(lines: seq<string>, start: nat, fence: Fence, ids: IdFactory)
    returns (nodes: seq<BlockNode>, next: nat, ghost heap: set<BlockNode>)
    requires start < |lines|
    modifies ids
    ensures fresh(heap) && Delivers(nodes, next, CodeStep(lines[start..], fence), start, old(ids.counter), ids, heap)
  {
    hide *;
    ghost var p := FenceBody(fence);
    BodyOfFence(fence);
    assert lines[start + 1..start + 1] == [];
    var content: seq<string> := [];
    var index := start + 1;
    while index < |lines| && !IsFenceEnd(lines[index], fence)
      invariant start + 1 <= index <= |lines|
      invariant content == lines[start + 1..index]
      invariant CountWhile(p, lines[start + 1..]) == (index - start - 1) + CountWhile(p, lines[index..])
      modifies {}
    {
      CountStep(p, lines, start, index);
      content := content + [lines[index]];
      index := index + 1;
    }
    CountDone(p, lines, index);
    next := if index < |lines| then index + 1 else index;
    CodeStepOf(lines, start, fence, index - start - 1);
    assert content == lines[start + 1..start + 1 + (index - start - 1)];
    var shape := CodeBlock(fence.language, ParseInline(Join(content, "\n")));
    var node;
    node, heap := CreateBlock(shape, ids);
    nodes := [node];
    DeliversLeaf(node, next, CodeStep(lines[start..], fence), shape, start, old(ids.counter), ids, heap);
  }

  lemma CodeStepOf(lines: seq<string>, start: nat, fence: Fence, n: nat)
    requires start < |lines| && start + 1 + n <= |lines|
    requires CountWhile(FenceBody(fence), lines[start + 1..]) == n
    ensures var text := Join(lines[start + 1..start + 1 + n], "\n");
            CodeStep(lines[start..], fence)
            == Step([Leaf(CodeBlock(fence.language, ParseInline(text)))],
                    if n < |lines| - start - 1 then n + 2 else n + 1)
  {
    assert lines[start..][1..] == lines[start + 1..];
    assert lines[start + 1..][..n] == lines[start + 1..start + 1 + n];
  }

  lemma QuoteStepOf(lines: seq<string>, start: nat, n: nat)
    requires start + n <= |lines| && CountWhile(QuoteLines(), lines[start..]) == n
    ensures var text := TrimEnd(Join(UnquoteAll(lines[start..start + n]), "\n"));
            QuoteStep(lines[start..]) == Step([Leaf(Quote(ParseInline(text)))], n)
  {
    hide ParseInline, UnquoteAll, CountWhile, TrimEnd;
    assert lines[start..][..n] == lines[start..start + n];
  }

  lemma ParagraphStepOf(lines: seq<string>, start: nat, n: nat)
    requires start + n <= |lines| && CountWhile(ParagraphLines(), lines[start..]) == n
    ensures var text := Trim(Join(TrimAll(lines[start..start + n]), " "));
            ParagraphStep(lines[start..]) == Step([Leaf(Paragraph(ParseInline(text)))], n)
  {
    hide ParseInline, TrimAll, CountWhile, Trim;
    assert lines[start..][..n] == lines[start..start + n];
  }

  method ParseBlockquote(lines: seq<string>, start: nat, ids: IdFactory)
    returns (nodes: seq<BlockNode>, next: nat, ghost heap: set<BlockNode>)
    requires start < |lines|
    modifies ids
    ensures fresh(heap) && Delivers(nodes, next, QuoteStep(lines[start..]), start, old(ids.counter), ids, heap)
  {
    hide *;
    ghost var p := QuoteLines();
    LinePredicates();
    NoLines(lines, start);
    var quoteLines: seq<string> := [];
    var index := start;
    while index < |lines| && IsBlockquote(lines[index])
      invariant start <= index <= |lines|
      invariant quoteLines == UnquoteAll(lines[start..index])
      invariant CountWhile(p, lines[start..]) == (index - start) + CountWhile(p, lines[index..])
      modifies {}
    {
      CountStep(p, lines, start, index);
      UnquoteAllAppend(lines[start..index], lines[index]);
      assert lines[start..index] + [lines[index]] == lines[start..index + 1];
      quoteLines := quoteLines + [UnquoteLine(lines[index])];
      index := index + 1;
    }
    CountDone(p, lines, index);
    next := index;
    QuoteStepOf(lines, start, next - start);
    assert lines[start..start + (next - start)] == lines[start..next];
    var shape := Quote(ParseInline(TrimEnd(Join(quoteLines, "\n"))));
    var node;
    node, heap := CreateBlock(shape, ids);
    nodes := [node];
    DeliversLeaf(node, next, QuoteStep(lines[start..]), shape, start, old(ids.counter), ids, heap);
  }

  method ParseParagraph(lines: seq<string>, start: nat, ids: IdFactory)
    returns (nodes: seq<BlockNode>, next: nat, ghost heap: set<BlockNode>)
    requires start < |lines|
    modifies ids
    ensures fresh(heap) && Delivers(nodes, next, ParagraphStep(lines[start..]), start, old(ids.counter), ids, heap)
  {
    hide *;
    ghost var p := ParagraphLines();
    LinePredicates();
    NoLines(lines, start);
    var paragraphLines: seq<string> := [];
    var index := start;
    while index < |lines| && !StartsBlock(lines[index])
      invariant start <= index <= |lines|
      invariant paragraphLines == TrimAll(lines[start..index])
      invariant CountWhile(p, lines[start..]) == (index - start) + CountWhile(p, lines[index..])
      modifies {}
    {
      if IsBlank(lines[index]) {
        break;
      }
      CountStep(p, lines, start, index);
      TrimAllAppend(lines[start..index], lines[index]);
      assert lines[start..index] + [lines[index]] == lines[start..index + 1];
      paragraphLines := paragraphLines + [Trim(lines[index])];
      index := index + 1;
    }
    CountDone(p, lines, index);
    next := index;
    ParagraphStepOf(lines, start, next - start);
    assert lines[start..start + (next - start)] == lines[start..next];
    var shape := Paragraph(ParseInline(Trim(Join(paragraphLines, " "))));
    var node;
    node, heap := CreateBlock(shape, ids);
    nodes := [node];
    DeliversLeaf(node, next, ParagraphStep(lines[start..]), shape, start, old(ids.counter), ids, heap);
  }

  // ---- Tables ----

  method CreateRow(cells: seq<string>) returns (row: seq<Cell>)
    ensures |row| == |cells|
    ensures forall c | 0 <= c < |row| :: row[c] == Cell(CellContent(cells, c), AlignLeft)
  {
    hide CellContent;
    row := [];
    for c := 0 to |cells|
      invariant |row| == c
      invariant forall i | 0 <= i < c :: row[i] == Cell(CellContent(cells, i), AlignLeft)
    {
      assert CellContent(cells, c) == ParseInline(Trim(cells[c])) by { CellContentInside(cells, c); }
      row := row + [Cell(ParseInline(Trim(cells[c])), AlignLeft)];
    }
  }

  lemma CellContentInside(cells: seq<string>, c: nat)
    ensures c < |cells| ==> CellContent(cells, c) == ParseInline(Trim(cells[c]))
    ensures c >= |cells| ==> CellContent(cells, c) == []
  {
    ParseInlineEmpty();
  }

  /** Fills a row up with empty cells. */
  method PadRow(row: seq<Cell>, width: nat, ghost cells: seq<string>) returns (padded: seq<Cell>)
    requires |row| == |cells| <= width
    requires forall c | 0 <= c < |row| :: row[c] == Cell(CellContent(cells, c), AlignLeft)
    ensures |padded| == width
    ensures forall c | 0 <= c < width :: padded[c] == Cell(CellContent(cells, c), AlignLeft)
  {
    hide CellContent;
    padded := row;
    while |padded| < width
      invariant |cells| <= |padded| <= width
      invariant forall c | 0 <= c < |padded| :: padded[c] == Cell(CellContent(cells, c), AlignLeft)
    {
      CellContentInside(cells, |padded|);
      padded := padded + [Cell([], AlignLeft)];
    }
  }

  /** Sets the alignment of every cell of a row. */
  method AlignRow(row: seq<Cell>, alignments: seq<Alignment>, ghost cells: seq<string>, ghost marks: seq<string>)
    returns (aligned: seq<Cell>)
    requires |alignments| == |marks|
    requires forall c | 0 <= c < |marks| :: alignments[c] == ParseAlignment(Trim(marks[c]))
    requires forall c | 0 <= c < |row| :: row[c] == Cell(CellContent(cells, c), AlignLeft)
    ensures aligned == TableRow(cells, marks, |row|)
  {
    hide CellContent, ParseAlignment, Trim;
    aligned := row;
    for c := 0 to |row|
      invariant |aligned| == |row|
      invariant forall i | 0 <= i < c :: aligned[i] == Cell(CellContent(cells, i), ColumnAlignment(marks, i))
      invariant forall i | c <= i < |row| :: aligned[i] == row[i]
    {
      aligned := aligned[c := aligned[c].(align := if c < |alignments| then alignments[c] else AlignLeft)];
    }
  }

  lemma {:induction false} WidthAppend(rows: seq<seq<string>>, row: seq<string>)
    ensures Width(rows + [row]) == Max(Width(rows), |row|)
  {
    if rows == [] {
      assert rows + [row] == [row];
    } else {
      assert (rows + [row])[1..] == rows[1..] + [row];
      WidthAppend(rows[1..], row);
    }
  }

  lemma {:induction false} WidthBounds(rows: seq<seq<string>>, r: nat)
    requires r < |rows|
    ensures |rows[r]| <= Width(rows)
  {
    if r > 0 {
      WidthBounds(rows[1..], r - 1);
    }
  }

  lemma {:induction false} TableRowsAppend(rows: seq<seq<string>>, row: seq<string>, marks: seq<string>, width: nat)
    ensures TableRows(rows + [row], marks, width) == TableRows(rows, marks, width) + [TableRow(row, marks, width)]
  {
    hide TableRow;
    if rows == [] {
      assert rows + [row] == [row];
    } else {
      assert (rows + [row])[1..] == rows[1..] + [row];
      TableRowsAppend(rows[1..], row, marks, width);
    }
  }

  /** Rows as they are before padding. */
  ghost predicate RowsCreated(rows: seq<seq<Cell>>, cells: seq<seq<string>>) {
    && |rows| == |cells|
    && forall r | 0 <= r < |rows| ::
         && |rows[r]| == |cells[r]|
         && forall c | 0 <= c < |rows[r]| :: rows[r][c] == Cell(CellContent(cells[r], c), AlignLeft)
  }

  lemma WidthOfOne(row: seq<string>)
    ensures Width([row]) == |row|
  {
    assert Width([]) == 0;
  }

  method ReadRows(lines: seq<string>, start: nat)
    returns (rows: seq<seq<Cell>>, next: nat, columnCount: nat, ghost cells: seq<seq<string>>)
    requires start + 1 < |lines|
    ensures var n := CountWhile(TableLines(), lines[start + 2..]);
            && next == start + 2 + n
            && cells == [TableCells(lines[start])] + CellsOfAll(lines[start + 2..start + 2 + n])
    ensures RowsCreated(rows, cells) && columnCount == Width(cells)
  {
    hide CellContent, TableCells, IsTableDataLine, Width, Max;
    ghost var p := TableLines();
    var header := CreateRow(TableCells(lines[start]));
    rows := [header];
    cells := [TableCells(lines[start])];
    columnCount := |header|;
    WidthOfOne(TableCells(lines[start]));
    next := start + 2;
    while next < |lines| && IsTableDataLine(lines[next])
      invariant start + 2 <= next <= |lines|
      invariant cells == [TableCells(lines[start])] + CellsOfAll(lines[start + 2..next])
      invariant CountWhile(p, lines[start + 2..]) == (next - start - 2) + CountWhile(p, lines[next..])
      invariant RowsCreated(rows, cells) && columnCount == Width(cells)
    {
      CountStep(p, lines, start, next);
      CellsOfAllAppend(lines[start + 2..next], lines[next]);
      assert lines[start + 2..next] + [lines[next]] == lines[start + 2..next + 1];
      var row := CreateRow(TableCells(lines[next]));
      WidthAppend(cells, TableCells(lines[next]));
      rows := rows + [row];
      cells := cells + [TableCells(lines[next])];
      columnCount := Max(columnCount, |row|);
      next := next + 1;
    }
    CountDone(p, lines, next);
  }

  method ReadAlignments(cells: seq<string>) returns (alignments: seq<Alignment>)
    ensures |alignments| == |cells|
    ensures forall c | 0 <= c < |cells| :: alignments[c] == ParseAlignment(Trim(cells[c]))
  {
    hide ParseAlignment, Trim;
    alignments := [];
    for c := 0 to |cells|
      invariant |alignments| == c
      invariant forall i | 0 <= i < c :: alignments[i] == ParseAlignment(Trim(cells[i]))
    {
      alignments := alignments + [ParseAlignment(Trim(cells[c]))];
    }
  }

  lemma NoRows(marks: seq<string>)
    ensures forall width :: TableRows([], marks, width) == []
  {
  }

  lemma RowsCreatedMeans(rows: seq<seq<Cell>>, cells: seq<seq<string>>, r: nat)
    requires RowsCreated(rows, cells) && r < |rows|
    ensures |rows| == |cells| && |rows[r]| == |cells[r]|
    ensures forall c | 0 <= c < |rows[r]| :: rows[r][c] == Cell(CellContent(cells[r], c), AlignLeft)
  {
    hide CellContent;
  }

  lemma RowsCreatedLength(rows: seq<seq<Cell>>, cells: seq<seq<string>>)
    requires RowsCreated(rows, cells)
    ensures |rows| == |cells|
  {
    hide CellContent;
  }

  method ParseTable(lines: seq<string>, start: nat, ids: IdFactory)
    returns (nodes: seq<BlockNode>, next: nat, ghost heap: set<BlockNode>)
    requires start + 1 < |lines|
    modifies ids
    ensures fresh(heap) && Delivers(nodes, next, TableStep(lines[start..]), start, old(ids.counter), ids, heap)
  {
    hide *;
    assert |lines[start..]| > 1;
    var rows, columnCount;
    NoRows(TableCells(lines[start + 1]));
    ghost var cells;
    rows, next, columnCount, cells := ReadRows(lines, start);
    var marks := TableCells(lines[start + 1]);
    var alignments := ReadAlignments(marks);
    var finished: seq<seq<Cell>> := [];
    RowsCreatedLength(rows, cells);
    assert cells[..0] == [];
    for r := 0 to |rows|
      invariant finished == TableRows(cells[..r], marks, columnCount)
      modifies {}
    {
      RowsCreatedMeans(rows, cells, r);
      WidthBounds(cells, r);
      var padded := PadRow(rows[r], columnCount, cells[r]);
      var aligned := AlignRow(padded, alignments, cells[r], marks);
      TableRowsAppend(cells[..r], cells[r], marks, columnCount);
      assert cells[..r] + [cells[r]] == cells[..r + 1];
      finished := finished + [aligned];
    }
    assert cells[..|rows|] == cells;
    TableStepOf(lines, start, next - start - 2);
    var node;
    node, heap := CreateBlock(Table(finished), ids);
    nodes := [node];
    DeliversLeaf(node, next, TableStep(lines[start..]), Table(finished), start, old(ids.counter), ids, heap);
  }

  lemma TableStepOf(lines: seq<string>, start: nat, n: nat)
    requires start + 1 < |lines| && start + 2 + n <= |lines|
    requires CountWhile(TableLines(), lines[start + 2..]) == n
    ensures var rows := [TableCells(lines[start])] + CellsOfAll(lines[start + 2..start + 2 + n]);
            TableStep(lines[start..])
            == Step([Leaf(Table(TableRows(rows, TableCells(lines[start + 1]), Width(rows))))], n + 2)
  {
    hide TableRows, TableCells, CellsOfAll, Width, CountWhile, TableLines;
    var rest := lines[start..];
    assert rest[0] == lines[start] && rest[1] == lines[start + 1] && rest[2..] == lines[start + 2..];
    assert rest[2..2 + n] == lines[start + 2..start + 2 + n];
  }

  // ---- Lists ----

  /** The objects `picked` are the ones with the given positions. */
  ghost predicate ArePicked(picked: seq<BlockNode>, nodes: seq<BlockNode>, at: seq<nat>) {
    |picked| == |at| && forall i | 0 <= i < |at| :: at[i] < |nodes| && picked[i] == nodes[at[i]]
  }

  /** Object k stands for item k, and its children are the objects of its child items. */
  ghost predicate Linked(nodes: seq<BlockNode>, items: seq<Marker>, first: nat)
    reads nodes
  {
    && |nodes| == |items|
    && (forall j, k | 0 <= j < k < |nodes| :: nodes[j] != nodes[k])
    && (forall k | 0 <= k < |nodes| :: nodes[k].id == first + k && nodes[k].shape == ItemShape(items[k]))
    && (forall k | 0 <= k < |nodes| :: ArePicked(nodes[k].children, nodes, Kids(items, k)))
  }

  /** The children lists of a linked run make its objects stand for its forest. */
  lemma {:induction false} SegmentRepresents(nodes: seq<BlockNode>, items: seq<Marker>, first: nat,
                                             heap: set<BlockNode>, p: int, lo: nat, hi: nat, picked: seq<BlockNode>)
    requires Linked(nodes, items, first) && forall node <- nodes :: node in heap
    requires lo <= hi <= |items| && Segment(items, p, lo, hi)
    requires ArePicked(picked, nodes, KidsIn(items, p, lo, hi))
    ensures RepresentsAll(picked, Forest(items[lo..hi]), first + lo, heap)
    decreases hi - lo
  {
    hide Segment, Forest, ItemShape, Parent, SegmentEnd, SizeAll, KidsIn;
    if lo == hi {
      assert items[lo..hi] == [];
      NoItems(items, p, lo);
    } else {
      var m := SegmentEnd(items, lo, hi);
      SegmentSplits(items, p, lo, hi);
      var node := nodes[lo];
      var later := picked[1..];
      var child := Block(ItemShape(items[lo]), Forest(items[lo + 1..m]));
      PickedTail(picked, nodes, lo, KidsIn(items, p, m, hi));
      SegmentRepresents(nodes, items, first, heap, lo, lo + 1, m, node.children);
      SegmentRepresents(nodes, items, first, heap, p, m, hi, later);
      SegmentUnfolds(items, lo, hi);
      ForestSize(items[lo + 1..m]);
      assert Represents(node, child, first + lo, heap);
      assert picked == [node] + later;
      RepresentsCons(node, child, later, Forest(items[m..hi]), first + lo, heap);
    }
  }

  lemma PickedTail(picked: seq<BlockNode>, nodes: seq<BlockNode>, head: nat, tail: seq<nat>)
    requires ArePicked(picked, nodes, [head] + tail)
    ensures head < |nodes| && picked != [] && picked[0] == nodes[head]
    ensures ArePicked(picked[1..], nodes, tail)
  {
    var at := [head] + tail;
    assert at[0] == head;
    forall i | 0 <= i < |tail| ensures tail[i] < |nodes| && picked[1..][i] == nodes[tail[i]] {
      assert at[i + 1] == tail[i];
    }
  }

  lemma NoItems(items: seq<Marker>, p: int, lo: nat)
    requires lo <= |items|
    ensures KidsIn(items, p, lo, lo) == [] && Forest([]) == []
  {
  }

  lemma RepresentsCons(node: BlockNode, block: Block, nodes: seq<BlockNode>, blocks: seq<Block>, first: nat,
                       heap: set<BlockNode>)
    requires Represents(node, block, first, heap)
    requires RepresentsAll(nodes, blocks, first + Size(block), heap)
    ensures RepresentsAll([node] + nodes, [block] + blocks, first, heap)
  {
    hide Represents, Size;
    assert ([block] + blocks)[1..] == blocks && ([node] + nodes)[1..] == nodes;
  }

  datatype Frame = Frame(indent: nat, block: BlockNode)

  ghost function Top(at: seq<nat>): int {
    if at == [] then -1 else at[|at| - 1]
  }

  /** The stack is the last item with all its ancestors, outermost first. */
  ghost predicate Chain(stack: seq<Frame>, at: seq<nat>, nodes: seq<BlockNode>, items: seq<Marker>) {
    && |stack| == |at| && |nodes| == |items|
    && (at != [] ==>
          var last := |at| - 1;
          && at[last] < |items|
          && stack[last] == Frame(items[at[last]].indent, nodes[at[last]])
          && Parent(items, at[last]) == Top(at[..last])
          && Chain(stack[..last], at[..last], nodes, items))
  }

  /** The indents on the stack increase strictly. */
  lemma {:induction false} StackIncreases(stack: seq<Frame>, at: seq<nat>, nodes: seq<BlockNode>, items: seq<Marker>,
                                          i: nat, j: nat)
    requires Chain(stack, at, nodes, items) && i < j < |stack|
    ensures stack[i].indent < stack[j].indent
  {
    hide Parent;
    var last := |at| - 1;
    if j < last {
      StackIncreases(stack[..last], at[..last], nodes, items, i, j);
    } else {
      TopBelow(stack, at, nodes, items);
      if i < last - 1 {
        StackIncreases(stack[..last], at[..last], nodes, items, i, last - 1);
      }
    }
  }

  lemma TopBelow(stack: seq<Frame>, at: seq<nat>, nodes: seq<BlockNode>, items: seq<Marker>)
    requires Chain(stack, at, nodes, items) && |stack| > 1
    ensures stack[|stack| - 2].indent < stack[|stack| - 1].indent
  {
    var last := |at| - 1;
    var k: int := at[last];
    NearestBelowIs(items, k - 1, items[k].indent);
    assert Chain(stack[..last], at[..last], nodes, items);
    assert stack[..last][last - 1] == Frame(items[at[..last][last - 1]].indent, nodes[at[..last][last - 1]]);
  }

  /** No item after position `top` could be the parent of an item with this indent. */
  ghost predicate NotBelow(items: seq<Marker>, top: int, indent: nat) {
    forall q | top < q < |items| && q >= 0 :: items[q].indent >= indent
  }

  lemma PopKeepsOut(items: seq<Marker>, top: nat, indent: nat)
    requires top < |items| && indent <= items[top].indent && NotBelow(items, top, indent)
    ensures NotBelow(items, Parent(items, top), indent)
  {
    NearestBelowIs(items, top - 1, items[top].indent);
  }

  lemma ParentOfNew(items: seq<Marker>, item: Marker, top: int)
    requires -1 <= top < |items| && NotBelow(items, top, item.indent)
    requires top >= 0 ==> items[top].indent < item.indent
    ensures Parent(items + [item], |items|) == top
  {
    NearestBelowPrefix(items, [item], |items| - 1, item.indent);
    NearestBelowUnique(items, |items| - 1, item.indent, top);
  }

  lemma PickedMore(picked: seq<BlockNode>, nodes: seq<BlockNode>, at: seq<nat>, node: BlockNode)
    requires ArePicked(picked, nodes, at)
    ensures ArePicked(picked, nodes + [node], at)
    ensures ArePicked(picked + [node], nodes + [node], at + [|nodes|])
  {
  }

  lemma NewItemHasNoKids(items: seq<Marker>, item: Marker)
    ensures Kids(items + [item], |items|) == []
  {
    hide Parent;
    NoKids(items + [item], |items|, 0, |items| + 1);
  }

  /** Linking one more item: only the list it was appended to has changed. */
  lemma LinkOneMore(nodes: seq<BlockNode>, items: seq<Marker>, first: nat, item: Marker, node: BlockNode,
                    top: int, childrenBefore: seq<seq<BlockNode>>)
    requires |nodes| == |items| == |childrenBefore| && -1 <= top < |items|
    requires forall j, k | 0 <= j < k < |nodes| :: nodes[j] != nodes[k]
    requires forall k | 0 <= k < |nodes| ::
               && nodes[k].id == first + k && nodes[k].shape == ItemShape(items[k]) && nodes[k] != node
               && ArePicked(childrenBefore[k], nodes, Kids(items, k))
               && nodes[k].children == childrenBefore[k] + (if k == top then [node] else [])
    requires node.id == first + |items| && node.shape == ItemShape(item) && node.children == []
    requires Parent(items + [item], |items|) == top
    ensures Linked(nodes + [node], items + [item], first)
  {
    hide Parent, ItemShape, Kids;
    var all, run := nodes + [node], items + [item];
    forall k | 0 <= k < |all| ensures ArePicked(all[k].children, all, Kids(run, k)) {
      if k < |nodes| {
        KidsOfOneMore(items, item, k);
        PickedMore(childrenBefore[k], nodes, Kids(items, k), node);
        assert Kids(items, k) + [] == Kids(items, k);
        assert childrenBefore[k] + [] == childrenBefore[k];
      } else {
        NewItemHasNoKids(items, item);
      }
    }
  }

  lemma RootsOneMore(roots: seq<BlockNode>, nodes: seq<BlockNode>, items: seq<Marker>, item: Marker, node: BlockNode)
    requires ArePicked(roots, nodes, Kids(items, -1)) && |nodes| == |items|
    ensures ArePicked(if Parent(items + [item], |items|) == -1 then roots + [node] else roots,
                      nodes + [node], Kids(items + [item], -1))
  {
    hide Parent, Kids;
    KidsOfOneMore(items, item, -1);
    PickedMore(roots, nodes, Kids(items, -1), node);
    assert Kids(items, -1) + [] == Kids(items, -1);
  }

  lemma {:induction false} ChainKept(stack: seq<Frame>, at: seq<nat>, nodes: seq<BlockNode>, items: seq<Marker>,
                                     item: Marker, node: BlockNode)
    requires Chain(stack, at, nodes, items)
    ensures Chain(stack, at, nodes + [node], items + [item])
  {
    hide Parent, Top;
    if at != [] {
      var last := |at| - 1;
      ChainKept(stack[..last], at[..last], nodes, items, item, node);
      ParentPrefix(items, [item], at[last]);
    }
  }

  lemma ChainOneMore(stack: seq<Frame>, at: seq<nat>, nodes: seq<BlockNode>, items: seq<Marker>,
                     item: Marker, node: BlockNode)
    requires Chain(stack, at, nodes, items) && Parent(items + [item], |items|) == Top(at)
    ensures Chain(stack + [Frame(item.indent, node)], at + [|items|], nodes + [node], items + [item])
  {
    hide Parent, Top;
    ChainKept(stack, at, nodes, items, item, node);
    assert (at + [|items|])[..|at|] == at;
    assert (stack + [Frame(item.indent, node)])[..|at|] == stack;
  }

  method CollectListContinuation(lines: seq<string>, start: nat, marker: Marker)
    returns (content: string, next: nat)
    requires start <= |lines|
    ensures var n := CountWhile(Continues(marker.indent), lines[start..]);
            && next == start + n
            && content == Join([marker.content] + TrimAll(lines[start..start + n]), " ")
  {
    hide *;
    ghost var p := Continues(marker.indent);
    ContinuesMeans(marker.indent);
    NoLines(lines, start);
    var parts := [marker.content];
    next := start;
    while next < |lines|
      invariant start <= next <= |lines|
      invariant parts == [marker.content] + TrimAll(lines[start..next])
      invariant CountWhile(p, lines[start..]) == (next - start) + CountWhile(p, lines[next..])
    {
      var line := lines[next];
      if IsBlank(line) || MatchListItem(line).Some? {
        break;
      }
      if CountIndent(line) <= marker.indent {
        break;
      }
      CountStep(p, lines, start, next);
      TrimAllAppend(lines[start..next], line);
      assert lines[start..next] + [line] == lines[start..next + 1];
      parts := parts + [Trim(line)];
      next := next + 1;
    }
    CountDone(p, lines, next);
    content := Join(parts, " ");
  }

  lemma ContinuesMeans(indent: nat)
    ensures forall line ::
              Continues(indent)(line) <==> !IsBlank(line) && MatchListItem(line).None? && CountIndent(line) > indent
  {
  }

  lemma CollectFirst(lines: seq<string>)
    requires lines != [] && MatchListItem(lines[0]).Some?
    ensures var marker := MatchListItem(lines[0]).value;
            var n := CountWhile(Continues(marker.indent), lines[1..]);
            var text := Join([marker.content] + TrimAll(lines[1..1 + n]), " ");
            var rest := CollectItems(lines[1 + n..]);
            CollectItems(lines) == ListRun([marker.(content := text)] + rest.items, 1 + n + rest.used)
  {
    hide MatchListItem, Continues, Join, TrimAll;
  }

  lemma CollectUnfolds(lines: seq<string>, index: nat)
    requires index < |lines| && MatchListItem(lines[index]).Some?
    ensures var marker := MatchListItem(lines[index]).value;
            var n := CountWhile(Continues(marker.indent), lines[index + 1..]);
            && index + 1 + n <= |lines|
            && var text := Join([marker.content] + TrimAll(lines[index + 1..index + 1 + n]), " ");
               var rest := CollectItems(lines[index + 1 + n..]);
               CollectItems(lines[index..]) == ListRun([marker.(content := text)] + rest.items, 1 + n + rest.used)
  {
    hide *;
    var run := lines[index..];
    SuffixOfSuffix(lines, index, 1);
    CollectFirst(run);
    var n := CountWhile(Continues(MatchListItem(run[0]).value.indent), run[1..]);
    CountBound(Continues(MatchListItem(run[0]).value.indent), run[1..]);
    SliceOfSuffix(lines, index, 1, 1 + n);
    SuffixOfSuffix(lines, index, 1 + n);
  }

  lemma CountBound(p: string -> bool, lines: seq<string>)
    ensures CountWhile(p, lines) <= |lines|
  {
  }

  lemma CollectEnds(lines: seq<string>, index: nat)
    requires index <= |lines| && (index < |lines| ==> MatchListItem(lines[index]).None?)
    ensures CollectItems(lines[index..]) == ListRun([], 0)
  {
  }

  lemma RunGrows(done: seq<Marker>, item: Marker, rest: seq<Marker>)
    ensures done + ([item] + rest) == (done + [item]) + rest
  {
  }

  lemma EmptyRun(first: nat)
    ensures Linked([], [], first) && ArePicked([], [], Kids([], -1)) && Chain([], [], [], []) && Top([]) == -1
  {
  }

  lemma AllAfterLast(items: seq<Marker>, indent: nat)
    ensures NotBelow(items, |items| - 1, indent)
  {
  }

  lemma PopOne(stack: seq<Frame>, at: seq<nat>, nodes: seq<BlockNode>, items: seq<Marker>, indent: nat)
    requires Chain(stack, at, nodes, items) && |stack| > 0
    requires indent <= stack[|stack| - 1].indent && NotBelow(items, Top(at), indent)
    ensures |at| == |stack|
    ensures Chain(stack[..|stack| - 1], at[..|at| - 1], nodes, items)
    ensures NotBelow(items, Top(at[..|at| - 1]), indent)
  {
    hide Parent;
    PopKeepsOut(items, at[|at| - 1], indent);
  }

  /** When popping stops, the top of the stack is the parent of the new item. */
  lemma TopIsParent(stack: seq<Frame>, at: seq<nat>, nodes: seq<BlockNode>, items: seq<Marker>, item: Marker)
    requires Chain(stack, at, nodes, items) && NotBelow(items, Top(at), item.indent)
    requires |stack| > 0 ==> stack[|stack| - 1].indent < item.indent
    ensures -1 <= Top(at) < |items| == |nodes|
    ensures |stack| == 0 <==> Top(at) == -1
    ensures |stack| > 0 ==> stack[|stack| - 1].block == nodes[Top(at)]
    ensures Parent(items + [item], |items|) == Top(at)
  {
    hide Parent;
    ParentOfNew(items, item, Top(at));
  }

  lemma TopOfPushed(at: seq<nat>, n: nat)
    ensures Top(at + [n]) == n
  {
  }

  ghost function ChildrenOf(nodes: seq<BlockNode>): (r: seq<seq<BlockNode>>)
    reads nodes
    ensures |r| == |nodes| && forall k | 0 <= k < |nodes| :: r[k] == nodes[k].children
  {
    seq(|nodes|, k reads nodes requires 0 <= k < |nodes| => nodes[k].children)
  }

  lemma LinkedMeans(nodes: seq<BlockNode>, items: seq<Marker>, first: nat)
    requires Linked(nodes, items, first)
    ensures |nodes| == |items|
    ensures forall j, k | 0 <= j < k < |nodes| :: nodes[j] != nodes[k]
    ensures forall k | 0 <= k < |nodes| ::
              && nodes[k].id == first + k && nodes[k].shape == ItemShape(items[k])
              && ArePicked(nodes[k].children, nodes, Kids(items, k))
  {
  }

  lemma RootKids(items: seq<Marker>)
    ensures Kids(items, -1) == KidsIn(items, -1, 0, |items|)
  {
  }

  lemma ListDelivers(nodes: seq<BlockNode>, next: nat, lines: seq<string>, start: nat, before: nat,
                     ids: IdFactory, heap: set<BlockNode>, items: seq<Marker>)
    requires start <= next && start <= |lines|
    requires CollectItems(lines[start..]) == ListRun(items, next - start)
    requires ids.counter == before + |items|
    requires RepresentsAll(nodes, Forest(items), before + 1, heap)
    ensures Delivers(nodes, next, ListStep(lines[start..]), start, before, ids, heap)
  {
    hide Forest, RepresentsAll, SizeAll, CollectItems;
    ForestSize(items);
  }

  method ParseList(lines: seq<string>, start: nat, ids: IdFactory)
    returns (nodes: seq<BlockNode>, next: nat, ghost heap: set<BlockNode>)
    requires start <= |lines|
    modifies ids
    ensures fresh(heap) && Delivers(nodes, next, ListStep(lines[start..]), start, old(ids.counter), ids, heap)
  {
    hide *;
    ghost var run := CollectItems(lines[start..]);
    ghost var first := ids.counter + 1;
    ghost var items: seq<Marker>, all: seq<BlockNode>, at: seq<nat> := [], [], [];
    var roots: seq<BlockNode>, stack: seq<Frame> := [], [];
    var index := start;
    EmptyRun(first);
    assert [] + run.items == run.items;
    while index < |lines|
      invariant start <= index <= |lines|
      invariant ids.counter + 1 == first + |items|
      invariant run == ListRun(items + CollectItems(lines[index..]).items,
                               (index - start) + CollectItems(lines[index..]).used)
      invariant fresh(set node | node in all)
      invariant Linked(all, items, first)
      invariant ArePicked(roots, all, Kids(items, -1))
      invariant Chain(stack, at, all, items) && Top(at) == |items| - 1
    {
      var found := MatchListItem(lines[index]);
      if found.None? {
        break;
      }
      var marker := found.value;
      CollectUnfolds(lines, index);
      var content, after := CollectListContinuation(lines, index + 1, marker);
      var item := marker.(content := content);
      var id := ids.Next();
      var block := new BlockNode(id, ItemShape(item));
      AllAfterLast(items, item.indent);
      while |stack| > 0 && marker.indent <= stack[|stack| - 1].indent
        invariant Chain(stack, at, all, items) && NotBelow(items, Top(at), item.indent)
        modifies {}
      {
        PopOne(stack, at, all, items, item.indent);
        stack, at := stack[..|stack| - 1], at[..|at| - 1];
      }
      TopIsParent(stack, at, all, items, item);
      LinkedMeans(all, items, first);
      ghost var childrenBefore, rootsBefore := ChildrenOf(all), roots;
      if |stack| > 0 {
        var parent := stack[|stack| - 1].block;
        parent.children := parent.children + [block];
      } else {
        roots := roots + [block];
      }
      LinkOneMore(all, items, first, item, block, Top(at), childrenBefore);
      RootsOneMore(rootsBefore, all, items, item, block);
      ChainOneMore(stack, at, all, items, item, block);
      TopOfPushed(at, |items|);
      stack, at := stack + [Frame(marker.indent, block)], at + [|items|];
      RunGrows(items, item, CollectItems(lines[after..]).items);
      items, all := items + [item], all + [block];
      index := after;
    }
    CollectEnds(lines, index);
    assert items + [] == items;
    heap := set node | node in all;
    WholeIsSegment(items);
    RootKids(items);
    SegmentRepresents(all, items, first, heap, -1, 0, |items|, roots);
    assert items[0..|items|] == items;
    nodes, next := roots, index;
    ListDelivers(nodes, next, lines, start, first - 1, ids, heap, items);
  }

  // ---- Any block, all blocks ----

  /** Which step NextBlock takes, test by test. */
  lemma NextBlockIs(lines: seq<string>)
    requires lines != [] && !IsBlank(lines[0])
    ensures var line := lines[0];
            var trimmed := Trim(line);
            var r := NextBlock(lines);
            if MatchFenceStart(line).Some? then r == CodeStep(lines, MatchFenceStart(line).value)
            else if IsHorizontalRule(trimmed) then r == Step([Leaf(HorizontalRule)], 1)
            else if MatchHeading(trimmed).Some? then
              var (level, text) := MatchHeading(trimmed).value;
              r == Step([Leaf(Heading(level, ParseInline(text)))], 1)
            else if MatchListItem(line).Some? then r == ListStep(lines)
            else if IsBlockquote(line) then r == QuoteStep(lines)
            else if IsTableStart(lines) then |lines| > 1 && r == TableStep(lines)
            else if MatchStandaloneImage(trimmed).Some? then
              var (caption, url) := MatchStandaloneImage(trimmed).value;
              r == Step([Leaf(Image(url, caption, FileName(url)))], 1)
            else r == ParagraphStep(lines)
  {
    assert IsTableStart(lines) ==> |lines| > 1;
    hide CodeStep, ListStep, QuoteStep, TableStep, ParagraphStep, IsTableStart, MatchFenceStart, IsHorizontalRule,
      MatchHeading, MatchListItem, IsBlockquote, MatchStandaloneImage, Trim, FileName, ParseInline, IsBlank;
  }

  method ParseNextBlock(lines: seq<string>, index: nat, ids: IdFactory)
    returns (nodes: seq<BlockNode>, next: nat, ghost heap: set<BlockNode>)
    requires index < |lines| && !IsBlank(lines[index])
    modifies ids
    ensures fresh(heap) && Delivers(nodes, next, NextBlock(lines[index..]), index, old(ids.counter), ids, heap)
  {
    hide *;
    ghost var step := NextBlock(lines[index..]);
    NextBlockIs(lines[index..]);
    var line := lines[index];
    var trimmed := Trim(line);
    var fence := MatchFenceStart(line);
    if fence.Some? {
      nodes, next, heap := ParseCodeBlock(lines, index, fence.value, ids);
      return;
    }
    if IsHorizontalRule(trimmed) {
      nodes, next, heap := ParseLeaf(HorizontalRule, index, ids, step);
      return;
    }
    var heading := MatchHeading(trimmed);
    if heading.Some? {
      nodes, next, heap := ParseLeaf(Heading(heading.value.0, ParseInline(heading.value.1)), index, ids, step);
      return;
    }
    if MatchListItem(line).Some? {
      nodes, next, heap := ParseList(lines, index, ids);
      return;
    }
    if IsBlockquote(line) {
      nodes, next, heap := ParseBlockquote(lines, index, ids);
      return;
    }
    if IsTableStart(lines[index..]) {
      nodes, next, heap := ParseTable(lines, index, ids);
      return;
    }
    var image := MatchStandaloneImage(trimmed);
    if image.Some? {
      nodes, next, heap :=
        ParseLeaf(Image(image.value.1, image.value.0, FileName(image.value.1)), index, ids, step);
      return;
    }
    nodes, next, heap := ParseParagraph(lines, index, ids);
  }

  /** A block that takes a single line. */
  method ParseLeaf(shape: Shape, index: nat, ids: IdFactory, ghost step: Step)
    returns (nodes: seq<BlockNode>, next: nat, ghost heap: set<BlockNode>)
    requires step == Step([Leaf(shape)], 1)
    modifies ids
    ensures fresh(heap) && Delivers(nodes, next, step, index, old(ids.counter), ids, heap)
  {
    hide *;
    var node;
    node, heap := CreateBlock(shape, ids);
    nodes := [node];
    next := index + 1;
    DeliversLeaf(node, next, step, shape, index, old(ids.counter), ids, heap);
  }

  lemma BlocksUnfold(lines: seq<string>, index: nat)
    requires index <= |lines|
    ensures index == |lines| ==> Blocks(lines[index..]) == []
    ensures index < |lines| && IsBlank(lines[index]) ==> Blocks(lines[index..]) == Blocks(lines[index + 1..])
    ensures index < |lines| && !IsBlank(lines[index]) ==>
              var step := NextBlock(lines[index..]);
              && 1 <= step.used && index + step.used <= |lines|
              && Blocks(lines[index..]) == step.blocks + Blocks(lines[index + step.used..])
  {
    hide NextBlock, IsBlank;
    var rest := lines[index..];
    if index < |lines| {
      assert rest[0] == lines[index];
      if IsBlank(lines[index]) {
        SuffixOfSuffix(lines, index, 1);
      } else {
        UsedInRange(rest);
        SuffixOfSuffix(lines, index, NextBlock(rest).used);
      }
    }
  }

  lemma UsedInRange(lines: seq<string>)
    requires lines != [] && !IsBlank(lines[0])
    ensures 1 <= NextBlock(lines).used <= |lines|
  {
  }

  lemma DeliversMeans(nodes: seq<BlockNode>, next: int, step: Step, start: nat, before: nat,
                      ids: IdFactory, heap: set<BlockNode>)
    requires Delivers(nodes, next, step, start, before, ids, heap)
    ensures next == start + step.used && ids.counter == before + SizeAll(step.blocks)
    ensures RepresentsAll(nodes, step.blocks, before + 1, heap)
  {
  }

  lemma RepresentsNothing(first: nat, heap: set<BlockNode>)
    ensures RepresentsAll([], [], first, heap) && SizeAll([]) == 0
  {
  }

  /** The main loop. It ends for every text, because every step takes at least one line. */
  method ParseBlocks(lines: seq<string>, ids: IdFactory)
    returns (nodes: seq<BlockNode>, ghost heap: set<BlockNode>)
    modifies ids
    ensures fresh(heap)
    ensures ids.counter == old(ids.counter) + SizeAll(Blocks(lines))
    ensures RepresentsAll(nodes, Blocks(lines), old(ids.counter) + 1, heap)
  {
    hide *;
    ghost var first := ids.counter + 1;
    ghost var done: seq<Block> := [];
    nodes, heap := [], {};
    var index := 0;
    RepresentsNothing(first, {});
    assert lines[0..] == lines && [] + Blocks(lines) == Blocks(lines);
    while index < |lines|
      invariant index <= |lines|
      invariant done + Blocks(lines[index..]) == Blocks(lines)
      invariant fresh(heap)
      invariant ids.counter + 1 == first + SizeAll(done)
      invariant RepresentsAll(nodes, done, first, heap)
      decreases |lines| - index
    {
      BlocksUnfold(lines, index);
      if IsBlank(lines[index]) {
        index := index + 1;
        continue;
      }
      ghost var step := NextBlock(lines[index..]);
      ghost var before := ids.counter;
      var parsed, next;
      ghost var added;
      parsed, next, added := ParseNextBlock(lines, index, ids);
      DeliversMeans(parsed, next, step, index, before, ids, added);
      RepresentsMore(nodes, done, first, heap, heap + added);
      RepresentsMore(parsed, step.blocks, before + 1, added, heap + added);
      RepresentsConcat(nodes, done, parsed, step.blocks, first, heap + added);
      SizeConcat(done, step.blocks);
      assert done + (step.blocks + Blocks(lines[next..])) == (done + step.blocks) + Blocks(lines[next..]);
      nodes, done, heap := nodes + parsed, done + step.blocks, heap + added;
      index := next;
    }
    BlocksUnfold(lines, index);
    assert done + [] == done;
  }

  lemma ParseDocumentIs(markdown: string)
    ensures var blocks := Blocks(Split(NormalizeLineEndings(markdown), '\n'));
            ParseDocument(markdown) == if blocks == [] then [Leaf(Paragraph([]))] else blocks
  {
    hide Blocks, Split;
  }

  lemma NothingRepresented(nodes: seq<BlockNode>, blocks: seq<Block>, first: nat, heap: set<BlockNode>)
    requires RepresentsAll(nodes, blocks, first, heap)
    ensures |nodes| > 0 <==> blocks != []
    ensures blocks == [] ==> SizeAll(blocks) == 0
  {
  }

  /** Parsing a document, as objects: they spell out the blocks of the document, and their
      identifiers in preorder are exactly 1, 2, 3, ... */
  method Parse(markdown: string) returns (nodes: seq<BlockNode>, ghost heap: set<BlockNode>)
    ensures fresh(heap)
    ensures RepresentsAll(nodes, ParseDocument(markdown), 1, heap)
    ensures PreorderIds(nodes, ParseDocument(markdown), 1, heap) == CountFrom(1, SizeAll(ParseDocument(markdown)))
  {
    hide *;
    ParseDocumentIs(markdown);
    var lines := Split(NormalizeLineEndings(markdown), '\n');
    var ids := new IdFactory();
    nodes, heap := ParseBlocks(lines, ids);
    NothingRepresented(nodes, Blocks(lines), 1, heap);
    if |nodes| == 0 {
      var node;
      ParseInlineEmpty();
      node, heap := CreateBlock(Paragraph(ParseInline("")), ids);
      nodes := [node];
    }
    IdsCountUp(nodes, ParseDocument(markdown), 1, heap);
  }
}
