/** Whole documents: parsing the printed Markdown gives the document back. */
module DocumentRoundTrip {
  import opened Text
  import opened DocumentTypes
  import opened InlineParser
  import opened InlineRenderer
  import opened LineRecognizers
  import opened BlockParser
  import opened BlockRenderer
  import opened FenceSafety
  import opened ListRoundTrip
  import opened BlockRoundTrip
  import opened TableRoundTrip

  // ---- Lists ----

  /** What a printed list line looks like. */
  predicate ListLine(line: string) {
    && line != "" && !IsSpace(line[|line| - 1]) && '\n' !in line && '\r' !in line
    && MatchListItem(line).Some?
  }

  lemma MarkerIsClean(shape: Shape, orderedIndex: nat)
    requires shape.IsListItem()
    ensures var m := ListMarker(shape, orderedIndex); m != "" && '\n' !in m && '\r' !in m
  {
    hide NumberText;
    if shape.NumberedItem? {
      NumberTextReads(ItemNumber(shape, orderedIndex));
    }
  }

  lemma DotOnlyIsOneLine(t: string)
    requires ItemLineText(t)
    ensures '\n' !in t && '\r' !in t && !IsSpace(t[|t| - 1])
  {
  }

  lemma LineEnds(prefix: string, m: string, t: string)
    requires t != "" && !IsSpace(t[|t| - 1]) && '\n' !in t && '\r' !in t && '\n' !in m && '\r' !in m
    requires '\n' !in prefix && '\r' !in prefix
    ensures var line := TrimEnd(prefix + m + " " + t);
            line != "" && !IsSpace(line[|line| - 1]) && '\n' !in line && '\r' !in line
  {
    var line := prefix + m + " " + t;
    assert line[|line| - 1] == t[|t| - 1];
    TrimEndAt(line, |line|);
  }

  lemma ItemLineShape(shape: Shape, depth: nat, orderedIndex: nat)
    requires ShapeComesBack(shape, orderedIndex)
    ensures ListLine(ItemLine(shape, depth, orderedIndex))
  {
    LineMatches(shape, depth, orderedIndex);
    hide MatchListItem, RenderInline, MatchTask, ParseInline, NumberText, TrimEnd, ListMarker, ItemLineText, Faithful;
    var t := RenderInline(ContentOf(shape));
    DotOnlyIsOneLine(t);
    MarkerIsClean(shape, orderedIndex);
    LineEnds(Repeat(' ', depth * CHILD_INDENT), ListMarker(shape, orderedIndex), t);
  }

  lemma {:induction false} ItemLinesShape(blocks: seq<Block>, depth: nat, orderedIndex: nat)
    requires ItemsComeBack(blocks, orderedIndex)
    ensures forall line <- RenderItemsFrom(blocks, depth, orderedIndex) :: ListLine(line)
    decreases blocks
  {
    hide ListLine, ShapeComesBack, ItemLine;
    if blocks != [] {
      ItemLineShape(blocks[0].shape, depth, orderedIndex);
      ItemLinesShape(blocks[0].children, depth + 1, 1);
      ItemLinesShape(blocks[1..], depth, NextIndex(blocks[0].shape, orderedIndex));
    }
  }

  /** A list item opens neither a fence nor a heading. */
  lemma ItemIsNoFence(line: string)
    requires MatchListItem(line).Some?
    ensures !IsBlank(line) && MatchFenceStart(line).None? && MatchHeading(Trim(line)).None?
  {
    if IsBlank(line) {
      BlankIsNoItem(line);
    }
    hide MatchTask, MatchSeparatedText, NumberOf;
    var body := TrimStart(line);
    assert body != "" && (IsBulletSign(body[0]) || IsDigit(body[0]));
    assert Trim(line) != "" && Trim(line)[0] == body[0];
    assert RunLength(Trim(line), '#') == 0;
  }

  lemma ListNext(lines: seq<string>)
    requires lines != [] && MatchListItem(lines[0]).Some? && !IsHorizontalRule(Trim(lines[0]))
    requires !IsBlank(lines[0])
    ensures NextBlock(lines) == ListStep(lines)
  {
    ItemIsNoFence(lines[0]);
    hide MatchFenceStart, IsHorizontalRule, MatchHeading, MatchListItem, Trim, ListStep;
  }

  lemma ListReads(blocks: seq<Block>)
    requires ListComesBack(blocks)
    ensures ReadsAs(Join(RenderItemsFrom(blocks, 0, 1), "\n"), CanonItems(blocks, 1))
  {
    hide *;
    ListComesBackMeans(blocks);
    var lines := RenderItemsFrom(blocks, 0, 1);
    FirstItemLine(blocks);
    ItemLinesShape(blocks, 0, 1);
    var chunk := Join(lines, "\n");
    forall line | line in lines
      ensures line != "" && !IsSpace(line[|line| - 1]) && '\n' !in line && '\r' !in line && MatchListItem(line).Some?
    {
      ListLineMeans(line);
    }
    if '\r' in chunk {
      JoinChars(lines, "\n", '\r');
      assert false;
    }
    SplitOfJoin(lines, '\n');
    JoinEnds(lines);
    ItemIsNoFence(lines[0]);
    forall rest: seq<string> | rest == [] || IsBlank(rest[0])
      ensures (lines + rest)[0] == lines[0]
      ensures NextBlock(lines + rest) == Step(CanonItems(blocks, 1), |lines|)
    {
      ListNext(lines + rest);
      NestedListRoundTrip(blocks, rest);
    }
    ReadsAsIntro(chunk, lines, CanonItems(blocks, 1));
  }

  lemma ListLineMeans(line: string)
    requires ListLine(line)
    ensures line != "" && !IsSpace(line[|line| - 1]) && '\n' !in line && '\r' !in line
    ensures MatchListItem(line).Some?
  {
  }

  lemma ListComesBackMeans(blocks: seq<Block>)
    requires ListComesBack(blocks)
    ensures blocks != [] && ItemsComeBack(blocks, 1)
    ensures !IsHorizontalRule(Trim(ItemLine(blocks[0].shape, 0, 1)))
  {
  }

  lemma FirstItemLine(blocks: seq<Block>)
    requires blocks != []
    ensures var lines := RenderItemsFrom(blocks, 0, 1);
            lines != [] && lines[0] == ItemLine(blocks[0].shape, 0, 1)
  {
  }

  // ---- Any block ----

  /** Every block that comes back, other than an empty paragraph, is read from its own chunk. */
  lemma BlockReads(block: Block)
    requires BlockComesBack(block) && !block.shape.IsListItem() && block.shape != Paragraph([])
    ensures ReadsAs(RenderBlock(block), [Leaf(CanonBlockShape(block.shape))])
  {
    hide ReadsAs, ParagraphText, HeadingText, QuoteText, Faithful, RowsComeBack, ImageComesBack,
      LanguageComesBack, ParseInline, RenderInline, PlainText, CanonRows, RowsWidth, RenderBlock;
    assert block == Leaf(block.shape);
    match block.shape {
      case Paragraph(content) =>
        ParagraphReads(content);
        ParagraphIs(content);
      case Heading(level, content) => HeadingReads(level, content);
      case Quote(content) => QuoteReads(content);
      case CodeBlock(language, content) => CodeReads(language, content);
      case Table(rows) =>
        RowsComeBackMeans(rows);
        TableReads(rows);
      case Image(url, caption, name) => ImageReads(url, caption, name);
      case HorizontalRule =>
        RuleReads();
        RuleIs();
      case _ =>
    }
  }

  lemma ParagraphIs(content: seq<Inline>)
    ensures RenderBlock(Leaf(Paragraph(content))) == RenderInline(content)
  {
  }

  lemma RuleIs()
    ensures RenderBlock(Leaf(HorizontalRule)) == "---"
  {
  }

  // ---- Chunks and lines ----

  /** The lines of a document made of chunks with a blank line between them. */
  function ChunkLines(chunks: seq<string>): seq<string> {
    if chunks == [] then []
    else if |chunks| == 1 then Split(chunks[0], '\n')
    else Split(chunks[0], '\n') + [""] + ChunkLines(chunks[1..])
  }

  lemma {:induction false} SplitChunks(chunks: seq<string>)
    requires chunks != []
    ensures Split(Join(chunks, "\n\n"), '\n') == ChunkLines(chunks)
  {
    if |chunks| > 1 {
      hide Split;
      SplitChunks(chunks[1..]);
      SplitAtBlank(chunks[0], Join(chunks[1..], "\n\n"));
    }
  }

  lemma SplitAtBlank(c: string, rest: string)
    ensures Split(c + "\n\n" + rest, '\n') == Split(c, '\n') + [""] + Split(rest, '\n')
  {
    hide Split;
    assert c + "\n\n" + rest == c + ['\n'] + ("" + ['\n'] + rest);
    SplitConcat(c, "" + ['\n'] + rest, '\n');
    SplitConcat("", rest, '\n');
    SplitNone("", '\n');
  }

  lemma BlankSkipped(lines: seq<string>)
    ensures Blocks([""] + lines) == Blocks(lines)
  {
    TrimOfTrimmed("");
    assert ([""] + lines)[1..] == lines;
    hide NextBlock;
  }

  lemma BlocksStep(lines: seq<string>, rest: seq<string>, blocks: seq<Block>)
    requires lines != [] && !IsBlank(lines[0])
    requires NextBlock(lines + rest) == Step(blocks, |lines|)
    ensures Blocks(lines + rest) == blocks + Blocks(rest)
  {
    hide NextBlock, IsBlank;
    assert (lines + rest)[|lines|..] == rest;
    assert (lines + rest)[0] == lines[0];
  }

  lemma ReadsAsMeans(chunk: string, blocks: seq<Block>)
    requires ReadsAs(chunk, blocks)
    ensures '\r' !in chunk && chunk != "" && !IsSpace(chunk[|chunk| - 1]) && !IsBlank(chunk)
    ensures !IsBlank(Split(chunk, '\n')[0])
  {
    BlankIsAllSpace(chunk);
    assert chunk[|chunk| - 1] in chunk;
  }

  lemma ReadsAsNext(chunk: string, blocks: seq<Block>, rest: seq<string>)
    requires ReadsAs(chunk, blocks)
    requires rest == [] || IsBlank(rest[0])
    ensures Split(chunk, '\n') != [] && !IsBlank(Split(chunk, '\n')[0])
    ensures NextBlock(Split(chunk, '\n') + rest) == Step(blocks, |Split(chunk, '\n')|)
  {
    hide NextBlock, IsBlank, Split;
  }

  /** A chunk, a blank line and more chunks: the blocks of the chunk, then those of the rest. */
  lemma ChunkThenRest(chunk: string, blocks: seq<Block>, chunks: seq<string>)
    requires ReadsAs(chunk, blocks)
    ensures Blocks(ChunkLines([chunk] + chunks)) == blocks + Blocks(ChunkLines(chunks))
  {
    hide Blocks, ReadsAs, Split, NextBlock;
    var lines := Split(chunk, '\n');
    var all := [chunk] + chunks;
    assert all[1..] == chunks;
    if chunks == [] {
      ReadsAsNext(chunk, blocks, []);
      assert lines + [] == lines;
      BlocksStep(lines, [], blocks);
    } else {
      var rest := [""] + ChunkLines(chunks);
      TrimOfTrimmed("");
      ReadsAsNext(chunk, blocks, rest);
      BlocksStep(lines, rest, blocks);
      BlankSkipped(ChunkLines(chunks));
      assert ChunkLines(all) == lines + rest;
    }
  }

  /** What all chunks of a document have in common. */
  predicate CleanChunk(chunk: string) {
    '\r' !in chunk && chunk != "" && !IsSpace(chunk[|chunk| - 1])
  }

  lemma NonBlankStep(chunk: string, chunks: seq<string>)
    ensures NonBlank([chunk] + chunks) == (if IsBlank(chunk) then [] else [chunk]) + NonBlank(chunks)
  {
    assert ([chunk] + chunks)[1..] == chunks;
    hide IsBlank;
  }

  /** One more chunk in front of chunks that are read as `after`. */
  lemma OneMoreChunk(chunk: string, blocks: seq<Block>, chunks: seq<string>, after: seq<Block>)
    requires ReadsAs(chunk, blocks)
    requires Blocks(ChunkLines(NonBlank(chunks))) == after
    requires forall c <- NonBlank(chunks) :: CleanChunk(c)
    ensures Blocks(ChunkLines(NonBlank([chunk] + chunks))) == blocks + after
    ensures forall c <- NonBlank([chunk] + chunks) :: CleanChunk(c)
  {
    hide *;
    NonBlankStep(chunk, chunks);
    ReadsAsMeans(chunk, blocks);
    ChunkThenRest(chunk, blocks, NonBlank(chunks));
    CleanIntro(chunk);
  }

  lemma CleanIntro(chunk: string)
    requires '\r' !in chunk && chunk != "" && !IsSpace(chunk[|chunk| - 1])
    ensures CleanChunk(chunk)
  {
  }

  lemma NothingPrinted()
    ensures NonBlank([]) == [] && Blocks(ChunkLines([])) == [] && Chunks([]) == []
    ensures NonBlank([""]) == []
  {
    TrimOfTrimmed("");
  }

  lemma EmptyParagraphIs()
    ensures RenderBlock(Leaf(Paragraph([]))) == ""
  {
  }

  // ---- The document ----

  lemma {:induction false} ChunksRead(blocks: seq<Block>)
    requires DocumentComesBack(blocks)
    ensures Blocks(ChunkLines(NonBlank(Chunks(blocks)))) == Canon(blocks)
    ensures forall c <- NonBlank(Chunks(blocks)) :: CleanChunk(c)
    decreases |blocks|
  {
    hide Blocks, ChunkLines, NonBlank, CleanChunk, ListComesBack, BlockComesBack, RenderBlock, RenderItemsFrom,
      CanonItems, CanonBlockShape, Join, ReadsAs, IsBlank;
    if blocks == [] {
      NothingPrinted();
    } else if blocks[0].shape.IsListItem() {
      var n := KindRun(blocks, blocks[0].shape);
      assert n >= 1;
      ListReads(blocks[..n]);
      ChunksRead(blocks[n..]);
      OneMoreChunk(Join(RenderItemsFrom(blocks[..n], 0, 1), "\n"), CanonItems(blocks[..n], 1),
        Chunks(blocks[n..]), Canon(blocks[n..]));
    } else {
      ChunksRead(blocks[1..]);
      if blocks[0].shape == Paragraph([]) {
        EmptyParagraph(blocks[0]);
        NonBlankStep(RenderBlock(blocks[0]), Chunks(blocks[1..]));
        assert [] + NonBlank(Chunks(blocks[1..])) == NonBlank(Chunks(blocks[1..]));
      } else {
        BlockReads(blocks[0]);
        OneMoreChunk(RenderBlock(blocks[0]), [Leaf(CanonBlockShape(blocks[0].shape))],
          Chunks(blocks[1..]), Canon(blocks[1..]));
      }
    }
  }

  lemma EmptyParagraph(block: Block)
    requires BlockComesBack(block) && block.shape == Paragraph([])
    ensures IsBlank(RenderBlock(block))
  {
    assert block == Leaf(Paragraph([]));
    EmptyParagraphIs();
    TrimOfTrimmed("");
  }

  lemma {:induction false} NoCarriageReturn(s: string)
    requires '\r' !in s
    ensures NormalizeLineEndings(s) == s
  {
    if s != "" {
      assert s[0] in s;
      NoCarriageReturn(s[1..]);
      assert [s[0]] + s[1..] == s;
    }
  }

  lemma {:induction false} ChunksJoinCleanly(chunks: seq<string>)
    requires chunks != [] && forall c <- chunks :: CleanChunk(c)
    ensures CleanChunk(Join(chunks, "\n\n"))
  {
    if |chunks| > 1 {
      ChunksJoinCleanly(chunks[1..]);
      var rest := Join(chunks[1..], "\n\n");
      var all := chunks[0] + "\n\n" + rest;
      assert CleanChunk(chunks[0]);
      assert all[|all| - 1] == rest[|rest| - 1];
    }
  }

  lemma CleanMeansTrimmedEnd(s: string)
    requires CleanChunk(s)
    ensures TrimEnd(s) == s && '\r' !in s
  {
    TrimEndAt(s, |s|);
  }

  lemma ParseIs(s: string, blocks: seq<Block>)
    requires '\r' !in s && Blocks(Split(s, '\n')) == blocks
    ensures ParseDocument(s) == if blocks == [] then [Leaf(Paragraph([]))] else blocks
  {
    NoCarriageReturn(s);
    hide Blocks, Split;
  }

  lemma RenderIs(blocks: seq<Block>)
    ensures Render(blocks) == TrimEnd(Join(NonBlank(Chunks(blocks)), "\n\n"))
  {
  }

  /** The main result about the codec. For every document of paragraphs, headings, quotes, fenced
      code, tables, images, rules and nested lists whose texts can stand where they are printed,
      parsing the printed Markdown gives the document back in its canonical form. Inline styling
      is kept wherever the inline items survive their own printing. */
  lemma DocumentRoundTrip(blocks: seq<Block>)
    requires DocumentComesBack(blocks)
    ensures ParseDocument(Render(blocks))
         == if Canon(blocks) == [] then [Leaf(Paragraph([]))] else Canon(blocks)
  {
    hide *;
    var chunks := NonBlank(Chunks(blocks));
    ChunksRead(blocks);
    RenderIs(blocks);
    if chunks == [] {
      NothingPrinted();
      EmptyDocument();
      ParseIs("", []);
    } else {
      var s := Join(chunks, "\n\n");
      SplitChunks(chunks);
      ChunksJoinCleanly(chunks);
      CleanMeansTrimmedEnd(s);
      ParseIs(s, Canon(blocks));
    }
  }

  lemma EmptyDocument()
    ensures TrimEnd(Join([], "\n\n")) == "" && Blocks(Split("", '\n')) == []
  {
    TrimOfTrimmed("");
    BlankSkipped([]);
    assert [""] + [] == [""];
  }

  /** Nothing changes in a document that is already in canonical form. */
  lemma CanonicalDocumentRoundTrip(blocks: seq<Block>)
    requires blocks != [] && DocumentComesBack(blocks) && Canon(blocks) == blocks
    ensures ParseDocument(Render(blocks)) == blocks
  {
    hide *;
    DocumentRoundTrip(blocks);
  }
}
