/** A printed table is read back with the same cells, filled up to its width. */
module TableRoundTrip {
  import opened Text
  import opened DocumentTypes
  import opened InlineParser
  import opened LineRecognizers
  import opened BlockParser
  import opened BlockRenderer
  import opened FenceSafety
  import opened BlockRoundTrip

  // ---- One row of cell texts ----

  /** A row without cells is printed as a row with one empty cell. */
  function AtLeastOne(cells: seq<string>): (r: seq<string>)
    ensures r != []
  {
    if cells == [] then [""] else cells
  }

  predicate CleanCell(t: string) {
    Trimmed(t) && '|' !in t
  }

  function Padded(cells: seq<string>): (r: seq<string>)
    ensures |r| == |cells|
  {
    if cells == [] then [] else [" " + cells[0] + " "] + Padded(cells[1..])
  }

  lemma {:induction false} PaddedAt(cells: seq<string>, i: nat)
    requires i < |cells|
    ensures Padded(cells)[i] == " " + cells[i] + " "
  {
    if i > 0 {
      PaddedAt(cells[1..], i - 1);
    }
  }

  lemma {:induction false} TrimmedCellsAre(cells: seq<string>)
    requires forall cell <- cells :: Trimmed(cell)
    ensures TrimmedCells(cells) == cells
  {
    if cells != [] {
      TrimOfTrimmed(cells[0]);
      TrimmedCellsAre(cells[1..]);
      hide Trim;
      assert [cells[0]] + cells[1..] == cells;
    }
  }

  lemma {:induction false} PaddedJoin(cells: seq<string>)
    requires cells != []
    ensures Join(Padded(cells), "|") == " " + Join(cells, " | ") + " "
  {
    if |cells| > 1 {
      PaddedJoin(cells[1..]);
      assert Padded(cells)[1..] == Padded(cells[1..]);
      var rest := Join(cells[1..], " | ");
      assert (" " + cells[0] + " ") + "|" + (" " + rest + " ") == " " + (cells[0] + " | " + rest) + " ";
    } else {
      assert Padded(cells) == [" " + cells[0] + " "];
    }
  }

  lemma RowIs(cells: seq<string>)
    requires forall cell <- cells :: CleanCell(cell)
    ensures RenderTableRow(cells) == "|" + Join(Padded(AtLeastOne(cells)), "|") + "|"
  {
    hide Padded;
    TrimmedCellsAre(cells);
    PaddedJoin(AtLeastOne(cells));
    var inner := Join(cells, " | ");
    assert Join([""], " | ") == "";
    assert "| " + inner + " |" == "|" + (" " + inner + " ") + "|";
  }

  lemma StripBars(inner: string)
    ensures TableCells("|" + inner + "|") == Split(inner, '|')
  {
    var line := "|" + inner + "|";
    assert Trim(line) == line by {
      BarIsVisible();
      hide IsSpace, TrimStart, TrimEnd, Trim;
      assert line[0] == '|' && line[|line| - 1] == '|';
      TrimOfTrimmed(line);
    }
    hide Split, Trim;
    assert line[1..] == inner + "|";
    assert (inner + "|")[..|inner|] == inner && (inner + "|")[|inner|] == '|';
  }

  lemma BarIsVisible()
    ensures !IsSpace('|')
  {
  }

  /** Reading a printed row gives its cells, each between two spaces. */
  lemma RowReads(cells: seq<string>)
    requires forall cell <- cells :: CleanCell(cell)
    ensures TableCells(RenderTableRow(cells)) == Padded(AtLeastOne(cells))
  {
    hide *;
    var padded := Padded(AtLeastOne(cells));
    RowIs(cells);
    StripBars(Join(padded, "|"));
    NoBars(cells);
    SplitOfJoin(padded, '|');
  }

  lemma NoBars(cells: seq<string>)
    requires forall cell <- cells :: CleanCell(cell)
    ensures Padded(AtLeastOne(cells)) != []
    ensures forall part <- Padded(AtLeastOne(cells)) :: '|' !in part
  {
    hide Padded;
    var all := AtLeastOne(cells);
    forall i | 0 <= i < |all| ensures '|' !in Padded(all)[i] {
      PaddedAt(all, i);
      assert cells != [] ==> all[i] in cells && CleanCell(all[i]);
    }
  }

  lemma PaddedTrims(cells: seq<string>, c: nat)
    requires forall cell <- cells :: CleanCell(cell)
    requires c < |AtLeastOne(cells)|
    ensures Trim(Padded(AtLeastOne(cells))[c]) == AtLeastOne(cells)[c]
  {
    hide Padded, Trim;
    var all := AtLeastOne(cells);
    PaddedAt(all, c);
    assert cells != [] ==> all[c] in cells && CleanCell(all[c]);
    TrimOfPadded(" ", all[c], " ");
  }

  // ---- Alignment row ----

  lemma MarkIsRead(align: Alignment)
    ensures var mark := AlignmentMark(align);
            CleanCell(mark) && IsAlignmentCell(mark) && ParseAlignment(mark) == CanonAlignment(align)
            && '\n' !in mark && '\r' !in mark
  {
    match align
    case AlignCenter => assert ":---:"[1..] == "---:" && "---:"[..3] == "---";
    case AlignRight => assert "---:"[..3] == "---";
    case _ => assert ":---"[1..] == "---";
  }

  lemma {:induction false} MarksAt(cells: seq<Cell>, i: nat)
    requires i < |cells|
    ensures AlignmentMarks(cells)[i] == AlignmentMark(cells[i].align)
  {
    if i > 0 {
      MarksAt(cells[1..], i - 1);
    }
  }

  lemma MarksAreClean(cells: seq<Cell>)
    ensures forall mark <- AlignmentMarks(cells) :: CleanCell(mark) && '\n' !in mark && '\r' !in mark
  {
    hide AlignmentMarks, AlignmentMark, CleanCell;
    forall i | 0 <= i < |cells|
      ensures var mark := AlignmentMarks(cells)[i]; CleanCell(mark) && '\n' !in mark && '\r' !in mark
    {
      MarksAt(cells, i);
      MarkIsRead(cells[i].align);
    }
  }

  lemma AlignmentRowReads(header: seq<Cell>)
    requires header != []
    ensures var line := RenderTableRow(AlignmentMarks(header));
            && IsAlignmentLine(line)
            && TableCells(line) == Padded(AlignmentMarks(header))
  {
    hide RenderTableRow, AlignmentMarks, AlignmentMark, CleanCell, IsAlignmentCell, Padded, TableCells, Trim;
    var marks := AlignmentMarks(header);
    var line := RenderTableRow(marks);
    MarksAreClean(header);
    RowReads(marks);
    forall i | 0 <= i < |marks| ensures IsAlignmentCell(Trim(Padded(marks)[i])) {
      PaddedTrims(marks, i);
      MarksAt(header, i);
      MarkIsRead(header[i].align);
    }
  }

  // ---- Cells ----

  lemma {:induction false} CellTextsAt(cells: seq<Cell>, i: nat)
    requires i < |cells|
    ensures CellTexts(cells)[i] == PlainText(cells[i].content)
  {
    if i > 0 {
      CellTextsAt(cells[1..], i - 1);
    }
  }

  lemma TextsAreClean(row: seq<Cell>)
    requires forall cell <- row :: CellComesBack(cell)
    ensures forall t <- CellTexts(row) :: CleanCell(t) && '\n' !in t && '\r' !in t
  {
    hide CellTexts, PlainText;
    forall i | 0 <= i < |row|
      ensures var t := CellTexts(row)[i]; CleanCell(t) && '\n' !in t && '\r' !in t
    {
      CellTextsAt(row, i);
      assert CellComesBack(row[i]);
    }
  }

  lemma ContentReads(row: seq<Cell>, c: nat)
    requires forall cell <- row :: CellComesBack(cell)
    ensures CellContent(Padded(AtLeastOne(CellTexts(row))), c) == if c < |row| then row[c].content else []
  {
    hide CellTexts, PlainText, Padded, Trim, ParseInline, CleanCell;
    TextsAreClean(row);
    ParseInlineEmpty();
    var texts := CellTexts(row);
    if c < |AtLeastOne(texts)| {
      PaddedTrims(texts, c);
      if c < |row| {
        CellTextsAt(row, c);
        assert CellComesBack(row[c]);
      }
    }
  }

  lemma AlignmentReads(header: seq<Cell>, c: nat)
    requires header != []
    ensures ColumnAlignment(Padded(AlignmentMarks(header)), c)
         == if c < |header| then CanonAlignment(header[c].align) else AlignLeft
  {
    hide AlignmentMarks, AlignmentMark, Padded, Trim, ParseAlignment, CleanCell;
    MarksAreClean(header);
    if c < |header| {
      PaddedTrims(AlignmentMarks(header), c);
      MarksAt(header, c);
      MarkIsRead(header[c].align);
    }
  }

  lemma TableRowReads(row: seq<Cell>, header: seq<Cell>, width: nat)
    requires header != [] && forall cell <- row :: CellComesBack(cell)
    ensures TableRow(Padded(AtLeastOne(CellTexts(row))), Padded(AlignmentMarks(header)), width)
         == CanonRow(row, header, width)
  {
    hide CellContent, ColumnAlignment, Padded, AtLeastOne, CellTexts, AlignmentMarks, CellComesBack;
    var left := TableRow(Padded(AtLeastOne(CellTexts(row))), Padded(AlignmentMarks(header)), width);
    forall c | 0 <= c < width ensures left[c] == CanonRow(row, header, width)[c] {
      ContentReads(row, c);
      AlignmentReads(header, c);
    }
  }

  // ---- All rows ----

  /** The texts the parser splits the rows into. */
  function PaddedRows(rows: seq<seq<Cell>>): (r: seq<seq<string>>)
    ensures |r| == |rows|
  {
    if rows == [] then [] else [Padded(AtLeastOne(CellTexts(rows[0])))] + PaddedRows(rows[1..])
  }

  ghost predicate AllCellsComeBack(rows: seq<seq<Cell>>) {
    forall row <- rows :: forall cell <- row :: CellComesBack(cell)
  }

  lemma FirstRow(rows: seq<seq<Cell>>)
    requires rows != [] && AllCellsComeBack(rows)
    ensures AllCellsComeBack(rows[1..])
    ensures forall cell <- rows[0] :: CellComesBack(cell)
  {
    assert rows[0] in rows;
    assert forall row <- rows[1..] :: row in rows;
  }

  lemma {:induction false} BodyReads(rows: seq<seq<Cell>>)
    requires AllCellsComeBack(rows)
    ensures CellsOfAll(BodyLines(rows)) == PaddedRows(rows)
  {
    hide TableCells, RenderTableRow, CellTexts, Padded, CleanCell, AllCellsComeBack, CellComesBack;
    if rows != [] {
      FirstRow(rows);
      TextsAreClean(rows[0]);
      RowReads(CellTexts(rows[0]));
      BodyReads(rows[1..]);
    }
  }

  lemma {:induction false} WidthReads(rows: seq<seq<Cell>>)
    ensures Width(PaddedRows(rows)) == RowsWidth(rows)
  {
    if rows != [] {
      WidthReads(rows[1..]);
    }
  }

  lemma {:induction false} RowsRead(rows: seq<seq<Cell>>, header: seq<Cell>, width: nat)
    requires header != [] && AllCellsComeBack(rows)
    ensures TableRows(PaddedRows(rows), Padded(AlignmentMarks(header)), width) == CanonRows(rows, header, width)
  {
    hide TableRow, Padded, AtLeastOne, CellTexts, AlignmentMarks, AllCellsComeBack, CellComesBack;
    if rows != [] {
      FirstRow(rows);
      TableRowReads(rows[0], header, width);
      RowsRead(rows[1..], header, width);
    }
  }

  // ---- Table lines ----

  lemma RowLine(cells: seq<string>)
    requires forall t <- cells :: CleanCell(t) && '\n' !in t && '\r' !in t
    ensures var line := RenderTableRow(cells);
            && StartsQuietly(line) && line[0] == '|' && Trim(line) == line && !IsSpace(line[|line| - 1])
            && '\n' !in line && '\r' !in line
  {
    hide CleanCell;
    assert forall t <- cells :: Trimmed(t) by { CleanMeans(cells); }
    TrimmedCellsAre(cells);
    var inner := Join(cells, " | ");
    var line := "| " + inner + " |";
    if '\n' in inner {
      JoinChars(cells, " | ", '\n');
      assert false;
    }
    if '\r' in inner {
      JoinChars(cells, " | ", '\r');
      assert false;
    }
    hide Trim, Join;
    TrimOfTrimmed(line);
  }

  lemma CleanMeans(cells: seq<string>)
    requires forall t <- cells :: CleanCell(t)
    ensures forall t <- cells :: Trimmed(t)
  {
  }

  lemma BarLineIsData(line: string)
    requires StartsQuietly(line) && line[0] == '|' && Trim(line) == line
    ensures IsTableDataLine(line)
  {
    QuietStart(line);
    hide MatchFenceStart, IsHorizontalRule, MatchHeading, MatchListItem, Trim;
  }

  lemma BlankIsNoData(line: string)
    requires IsBlank(line)
    ensures !IsTableDataLine(line)
  {
  }

  /** What every printed table line looks like. */
  predicate BarLine(line: string) {
    && StartsQuietly(line) && line[0] == '|' && Trim(line) == line && !IsSpace(line[|line| - 1])
    && '\n' !in line && '\r' !in line
  }

  lemma {:induction false} BodyLinesLookRight(rows: seq<seq<Cell>>)
    requires AllCellsComeBack(rows)
    ensures forall line <- BodyLines(rows) :: BarLine(line)
  {
    hide RenderTableRow, CellTexts, CleanCell, AllCellsComeBack, CellComesBack, StartsQuietly, Trim;
    if rows != [] {
      FirstRow(rows);
      TextsAreClean(rows[0]);
      RowLine(CellTexts(rows[0]));
      BodyLinesLookRight(rows[1..]);
    }
  }

  lemma TableNext(lines: seq<string>)
    requires IsTableStart(lines) && StartsQuietly(lines[0]) && lines[0][0] == '|'
    ensures NextBlock(lines) == TableStep(lines)
  {
    QuietStart(lines[0]);
    hide MatchFenceStart, IsHorizontalRule, MatchHeading, MatchListItem, IsBlockquote, QuoteStep, CodeStep,
      ListStep, TableStep, ParagraphStep, Trim, IsTableStart;
    assert IsTableStart(lines) ==> |lines| > 1 by { TableStartHasTwoLines(lines); }
  }

  lemma TableStartHasTwoLines(lines: seq<string>)
    requires IsTableStart(lines)
    ensures |lines| > 1
  {
  }

  lemma BodyCount(body: seq<string>, rest: seq<string>)
    requires forall line <- body :: BarLine(line)
    requires rest == [] || IsBlank(rest[0])
    ensures CountWhile(TableLines(), body + rest) == |body|
  {
    hide BarLine, IsTableDataLine, IsBlank;
    forall i | 0 <= i < |body| ensures TableLines()(body[i]) {
      assert BarLine(body[i]);
      BarMeans(body[i]);
      BarLineIsData(body[i]);
    }
    if rest != [] {
      BlankIsNoData(rest[0]);
    }
    CountWhileIs(TableLines(), body, rest);
  }

  lemma BarMeans(line: string)
    requires BarLine(line)
    ensures StartsQuietly(line) && line[0] == '|' && Trim(line) == line && !IsSpace(line[|line| - 1])
    ensures '\n' !in line && '\r' !in line && !IsBlank(line)
  {
  }

  lemma TableStepReads(rows: seq<seq<Cell>>, rest: seq<string>)
    requires rows != [] && rows[0] != [] && AllCellsComeBack(rows)
    requires rest == [] || IsBlank(rest[0])
    ensures TableStep(TableMarkdownLines(rows) + rest)
         == Step([Leaf(Table(CanonRows(rows, rows[0], RowsWidth(rows))))], |TableMarkdownLines(rows)|)
  {
    hide *;
    var header, body := rows[0], BodyLines(rows[1..]);
    var head := RenderTableRow(CellTexts(header));
    var marks := RenderTableRow(AlignmentMarks(header));
    var lines := TableMarkdownLines(rows) + rest;
    TableLinesAre(rows);
    assert TableMarkdownLines(rows) == [head, marks] + body;
    FirstRow(rows);
    TextsAreClean(header);
    CleanOnly(CellTexts(header));
    RowReads(CellTexts(header));
    AlignmentRowReads(header);
    BodyReads(rows[1..]);
    BodyLinesLookRight(rows[1..]);
    assert lines[2..] == body + rest;
    BodyCount(body, rest);
    assert lines[2..2 + |body|] == body;
    assert lines[0] == head && lines[1] == marks;
    PaddedRowsStep(rows);
    WidthReads(rows);
    RowsRead(rows, header, RowsWidth(rows));
    TableStepIs(lines, |body|);
  }

  lemma CleanOnly(cells: seq<string>)
    requires forall t <- cells :: CleanCell(t) && '\n' !in t && '\r' !in t
    ensures forall t <- cells :: CleanCell(t)
  {
  }

  lemma PaddedRowsStep(rows: seq<seq<Cell>>)
    requires rows != []
    ensures PaddedRows(rows) == [Padded(AtLeastOne(CellTexts(rows[0])))] + PaddedRows(rows[1..])
  {
  }

  lemma TableLinesAre(rows: seq<seq<Cell>>)
    requires rows != []
    ensures TableMarkdownLines(rows)
         == [RenderTableRow(CellTexts(rows[0])), RenderTableRow(AlignmentMarks(rows[0]))] + BodyLines(rows[1..])
  {
  }

  lemma TableStepIs(lines: seq<string>, n: nat)
    requires |lines| >= 2 + n && CountWhile(TableLines(), lines[2..]) == n
    ensures var rows := [TableCells(lines[0])] + CellsOfAll(lines[2..2 + n]);
            TableStep(lines) == Step([Leaf(Table(TableRows(rows, TableCells(lines[1]), Width(rows))))], n + 2)
  {
  }

  lemma RenderTableIs(rows: seq<seq<Cell>>)
    requires rows != []
    ensures RenderBlock(Leaf(Table(rows))) == Join(TableMarkdownLines(rows), "\n")
  {
  }

  lemma RowsComeBackMeans(rows: seq<seq<Cell>>)
    requires RowsComeBack(rows)
    ensures rows != [] && rows[0] != [] && AllCellsComeBack(rows)
  {
  }

  lemma TableStarts(lines: seq<string>)
    requires |lines| > 1 && BarLine(lines[0]) && IsAlignmentLine(lines[1])
    ensures IsTableStart(lines)
  {
    hide IsTableDataLine, IsAlignmentLine;
    BarLineIsData(lines[0]);
  }

  /** A table whose cells are trimmed one-line texts without bars comes back, ragged rows included:
      they are filled up with empty cells, and every column takes the alignment of its header. */
  lemma TableReads(rows: seq<seq<Cell>>)
    requires RowsComeBack(rows)
    ensures ReadsAs(RenderBlock(Leaf(Table(rows))), [Leaf(Table(CanonRows(rows, rows[0], RowsWidth(rows))))])
  {
    hide *;
    RowsComeBackMeans(rows);
    var lines := TableMarkdownLines(rows);
    var result := [Leaf(Table(CanonRows(rows, rows[0], RowsWidth(rows))))];
    TableLinesLookRight(rows);
    RenderTableIs(rows);
    var chunk := Join(lines, "\n");
    assert '\r' !in chunk by {
      if '\r' in chunk {
        JoinChars(lines, "\n", '\r');
        var line :| line in lines && '\r' in line;
        BarMeans(line);
      }
    }
    assert forall line <- lines :: '\n' !in line by {
      forall line | line in lines ensures '\n' !in line { BarMeans(line); }
    }
    SplitOfJoin(lines, '\n');
    BarMeans(lines[|lines| - 1]);
    BarMeans(lines[0]);
    JoinEnds(lines);
    forall rest: seq<string> | rest == [] || IsBlank(rest[0])
      ensures (lines + rest)[0] == lines[0]
      ensures NextBlock(lines + rest) == Step(result, |lines|)
    {
      TableStarts(lines + rest);
      TableNext(lines + rest);
      TableStepReads(rows, rest);
    }
    ReadsAsIntro(chunk, lines, result);
  }

  lemma TableLinesLookRight(rows: seq<seq<Cell>>)
    requires rows != [] && rows[0] != [] && AllCellsComeBack(rows)
    ensures var lines := TableMarkdownLines(rows);
            && |lines| > 1 && IsAlignmentLine(lines[1])
            && forall line <- lines :: BarLine(line)
  {
    hide *;
    TableLinesAre(rows);
    FirstRow(rows);
    TextsAreClean(rows[0]);
    RowLine(CellTexts(rows[0]));
    MarksAreClean(rows[0]);
    RowLine(AlignmentMarks(rows[0]));
    AlignmentRowReads(rows[0]);
    BodyLinesLookRight(rows[1..]);
    IsBarLine(RenderTableRow(CellTexts(rows[0])));
    IsBarLine(RenderTableRow(AlignmentMarks(rows[0])));
  }

  lemma IsBarLine(line: string)
    requires StartsQuietly(line) && line[0] == '|' && Trim(line) == line && !IsSpace(line[|line| - 1])
    requires '\n' !in line && '\r' !in line
    ensures BarLine(line)
  {
  }
}
