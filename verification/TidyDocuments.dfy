/** Documents that come back, described by their structure alone: without running the scanner. */
module TidyDocuments {
  import opened Text
  import opened DocumentTypes
  import opened InlineParser
  import opened InlineText
  import opened InlineRenderer
  import opened InlineRoundTrip
  import opened LineRecognizers
  import opened BlockParser
  import opened BlockRenderer
  import opened FenceSafety
  import opened ListRoundTrip
  import opened BlockRoundTrip
  import opened DocumentRoundTrip

  /** Nothing, or one unstyled run without any character that opens a match. */
  predicate Unmarked(content: seq<Inline>) {
    content == []
    || (&& |content| == 1 && IsPlain(content[0]) && content[0].span.text != ""
        && forall c <- content[0].span.text :: !IsDelimiter(c))
  }

  predicate TidyBlock(block: Block) {
    && block.children == []
    && match block.shape
       case Paragraph(content) => content == [] || (ParagraphText(RenderInline(content)) && ComesBack(content))
       case Heading(_, content) => HeadingText(RenderInline(content)) && ComesBack(content)
       case Quote(content) => QuoteText(PlainText(content)) && Unmarked(content)
       case CodeBlock(language, content) =>
         LanguageComesBack(language) && '\r' !in PlainText(content) && Unmarked(content)
       case Table(rows) =>
         && rows != [] && rows[0] != []
         && forall row <- rows :: forall cell <- row :: CellText(PlainText(cell.content)) && Unmarked(cell.content)
       case Image(url, caption, name) => ImageComesBack(url, ImageAlt(caption, name))
       case HorizontalRule => true
       case _ => false
  }

  predicate TidyShape(shape: Shape, orderedIndex: nat) {
    && shape.IsListItem()
    && ItemLineText(RenderInline(ContentOf(shape)))
    && ComesBack(ContentOf(shape))
    && (shape.BulletItem? ==> MatchTask(" " + RenderInline(ContentOf(shape))).None?)
    && (shape.NumberedItem? ==> ItemNumber(shape, orderedIndex) <= MAX_ITEM_NUMBER)
  }

  predicate TidyItems(blocks: seq<Block>, orderedIndex: nat) {
    blocks == []
    || (&& TidyShape(blocks[0].shape, orderedIndex)
        && TidyItems(blocks[0].children, 1)
        && TidyItems(blocks[1..], NextIndex(blocks[0].shape, orderedIndex)))
  }

  /** Inline items from plain, bold, italic, struck, code and link runs whose markers do not run
      together; unmarked texts in quotes, code and tables; list items and headings on one line. */
  predicate Tidy(blocks: seq<Block>)
    decreases |blocks|
  {
    if blocks == [] then true
    else if blocks[0].shape.IsListItem() then
      var n := KindRun(blocks, blocks[0].shape);
      && TidyItems(blocks[..n], 1) && !IsHorizontalRule(Trim(ItemLine(blocks[0].shape, 0, 1)))
      && Tidy(blocks[n..])
    else TidyBlock(blocks[0]) && Tidy(blocks[1..])
  }

  lemma UnmarkedReads(content: seq<Inline>)
    requires Unmarked(content)
    ensures ParseInline(PlainText(content)) == content
  {
    if content == [] {
      ParseInlineEmpty();
    } else {
      var t := content[0].span.text;
      PlainTextOfOne(content[0]);
      MarkupFreeText(t);
      assert content == [content[0]] && content[0] == Plain(t);
    }
  }

  lemma ComesBackIsFaithful(content: seq<Inline>)
    requires ComesBack(content)
    ensures Faithful(content)
  {
    hide ComesBack, ParseInline, RenderInline;
    InlineRoundTrip.InlineRoundTrip(content);
  }

  lemma TidyBlockComesBack(block: Block)
    requires TidyBlock(block)
    ensures BlockComesBack(block)
  {
    hide ComesBack, Faithful, ParseInline, RenderInline, PlainText, Unmarked, ParagraphText, HeadingText, QuoteText,
      CellText, ImageComesBack, LanguageComesBack;
    match block.shape
    case Paragraph(content) => if content != [] { ComesBackIsFaithful(content); }
    case Heading(_, content) => ComesBackIsFaithful(content);
    case Quote(content) => UnmarkedReads(content);
    case CodeBlock(_, content) => UnmarkedReads(content);
    case Table(rows) =>
      forall row, cell | row in rows && cell in row ensures CellComesBack(cell) {
        UnmarkedReads(cell.content);
      }
    case _ =>
  }

  lemma {:induction false} TidyItemsComeBack(blocks: seq<Block>, orderedIndex: nat)
    requires TidyItems(blocks, orderedIndex)
    ensures ItemsComeBack(blocks, orderedIndex)
  {
    hide ComesBack, Faithful, ItemLineText, MatchTask, ItemNumber, RenderInline;
    if blocks != [] {
      ComesBackIsFaithful(ContentOf(blocks[0].shape));
      TidyItemsComeBack(blocks[0].children, 1);
      TidyItemsComeBack(blocks[1..], NextIndex(blocks[0].shape, orderedIndex));
    }
  }

  lemma {:induction false} TidyComesBack(blocks: seq<Block>)
    requires Tidy(blocks)
    ensures DocumentComesBack(blocks)
    decreases |blocks|
  {
    hide TidyBlock, BlockComesBack, TidyItems, ItemsComeBack, ItemLine, IsHorizontalRule, Trim;
    if blocks != [] {
      if blocks[0].shape.IsListItem() {
        var n := KindRun(blocks, blocks[0].shape);
        TidyItemsComeBack(blocks[..n], 1);
        TidyComesBack(blocks[n..]);
      } else {
        TidyBlockComesBack(blocks[0]);
        TidyComesBack(blocks[1..]);
      }
    }
  }

  /** Every tidy document is printed and parsed back to its canonical form. */
  lemma TidyDocumentRoundTrip(blocks: seq<Block>)
    requires Tidy(blocks)
    ensures ParseDocument(Render(blocks))
         == if Canon(blocks) == [] then [Leaf(Paragraph([]))] else Canon(blocks)
  {
    hide *;
    TidyComesBack(blocks);
    DocumentRoundTrip.DocumentRoundTrip(blocks);
  }
}
