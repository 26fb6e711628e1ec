/** The block tree shared by the Markdown parser and the Markdown renderer. */
module DocumentTypes {
  import opened Text

  const CHILD_INDENT: nat := 2
  const TAB_WIDTH: nat := 4
  const MIN_FENCE: nat := 3
  const MAX_HEADING: nat := 6

  datatype Style = Bold | Italic | Strike | Code

  datatype Span = Span(text: string, styles: set<Style>)

  datatype Inline = Styled(span: Span) | Link(href: string, spans: seq<Span>)

  datatype Alignment = AlignLeft | AlignCenter | AlignRight | AlignJustify

  datatype Cell = Cell(content: seq<Inline>, align: Alignment)

  /** What a block is, apart from its identifier and its children. */
  datatype Shape =
    | Paragraph(content: seq<Inline>)
    | Heading(level: int, content: seq<Inline>)
    | Quote(content: seq<Inline>)
    | CodeBlock(language: string, content: seq<Inline>)
    | BulletItem(content: seq<Inline>)
    | CheckItem(checked: bool, content: seq<Inline>)
    | NumberedItem(start: Option<nat>, content: seq<Inline>)
    | Table(rows: seq<seq<Cell>>)
    | Image(url: string, caption: string, name: string)
    | HorizontalRule
    | Unsupported(kind: string, content: seq<Inline>)
  {
    predicate IsListItem() {
      BulletItem? || CheckItem? || NumberedItem?
    }
  }

  datatype Block = Block(shape: Shape, children: seq<Block>)

  function Leaf(shape: Shape): Block {
    Block(shape, [])
  }

  function Plain(text: string): Inline {
    Styled(Span(text, {}))
  }

  function SpansText(spans: seq<Span>): string {
    if spans == [] then "" else spans[0].text + SpansText(spans[1..])
  }

  function ItemText(item: Inline): string {
    match item
    case Styled(span) => span.text
    case Link(_, spans) => SpansText(spans)
  }

  /** The text of a run of inline items without its styling. */
  function PlainText(items: seq<Inline>): string {
    if items == [] then "" else ItemText(items[0]) + PlainText(items[1..])
  }

  lemma {:induction false} PlainTextConcat(a: seq<Inline>, b: seq<Inline>)
    ensures PlainText(a + b) == PlainText(a) + PlainText(b)
  {
    if a == [] {
      assert a + b == b;
    } else {
      assert (a + b)[0] == a[0] && (a + b)[1..] == a[1..] + b;
      PlainTextConcat(a[1..], b);
      hide ItemText;
      assert PlainText(a + b) == ItemText(a[0]) + PlainText(a[1..] + b);
    }
  }
}
