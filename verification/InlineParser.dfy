/** The inline scanner: links, code, strike-through, bold and italic inside one piece of text. */
module InlineParser {
  import opened Text
  import opened DocumentTypes

  datatype Kind = LinkKind | CodeKind | StrikeKind | BoldKind | ItalicKind

  /** What one pattern captures at a given place. */
  datatype Hit = Hit(length: nat, content: string, href: string)

  datatype Found = Found(index: nat, kind: Kind, hit: Hit)

  // ---- The five patterns, anchored at a place ----

  /** End of the run of characters that are neither `stop` nor a line feed. */
  function RunEnd(s: string, i: nat, stop: char): (r: nat)
    requires i <= |s|
    ensures i <= r <= |s|
    decreases |s| - i
  {
    if i == |s| || s[i] == stop || s[i] == '\n' then i else RunEnd(s, i + 1, stop)
  }

  /** First place from `j` on where `m` stands twice, with no line feed before it; |s| if none. */
  function PairEnd(s: string, j: nat, m: char): (r: nat)
    requires j <= |s|
    ensures j <= r <= |s|
    ensures r < |s| ==> r + 1 < |s|
    decreases |s| - j
  {
    if j + 1 >= |s| then |s|
    else if s[j] == m && s[j + 1] == m then j
    else if s[j] == '\n' then |s|
    else PairEnd(s, j + 1, m)
  }

  predicate NotBefore(s: string, i: nat, c: char)
    requires i <= |s|
  {
    i == 0 || s[i - 1] != c
  }

  function LinkHit(s: string, i: nat): (h: Option<Hit>)
    requires i < |s|
    ensures h.Some? ==> i + h.value.length <= |s| && |h.value.content| < h.value.length
  {
    if s[i] != '[' || !NotBefore(s, i, '!') then None
    else
      var j := RunEnd(s, i + 1, ']');
      if j + 2 > |s| || s[j] != ']' || s[j + 1] != '(' then None
      else
        var k := RunEnd(s, j + 2, ')');
        if k == j + 2 || k == |s| || s[k] != ')' then None
        else Some(Hit(k + 1 - i, s[i + 1..j], s[j + 2..k]))
  }

  function CodeHit(s: string, i: nat): (h: Option<Hit>)
    requires i < |s|
    ensures h.Some? ==> i + h.value.length <= |s| && |h.value.content| < h.value.length
  {
    if s[i] != '`' then None
    else
      var j := RunEnd(s, i + 1, '`');
      if j == i + 1 || j == |s| || s[j] != '`' then None
      else Some(Hit(j + 1 - i, s[i + 1..j], ""))
  }

  /** Two markers, at least one character on the same line, two markers; as short as possible. */
  function PairHit(s: string, i: nat, m: char): (h: Option<Hit>)
    requires i < |s|
    ensures h.Some? ==> i + h.value.length <= |s| && |h.value.content| < h.value.length
  {
    if i + 3 >= |s| || s[i] != m || s[i + 1] != m || s[i + 2] == '\n' then None
    else
      var j := PairEnd(s, i + 3, m);
      if j == |s| then None else Some(Hit(j + 2 - i, s[i + 2..j], ""))
  }

  /** A marker that does not touch another one, text without the marker, such a marker again. */
  function SingleHit(s: string, i: nat, m: char): (h: Option<Hit>)
    requires i < |s|
    ensures h.Some? ==> i + h.value.length <= |s| && |h.value.content| < h.value.length
  {
    if s[i] != m || !NotBefore(s, i, m) then None
    else
      var j := RunEnd(s, i + 1, m);
      if j == i + 1 || j == |s| || s[j] != m || (j + 1 < |s| && s[j + 1] == m) then None
      else Some(Hit(j + 1 - i, s[i + 1..j], ""))
  }

  function HitAt(kind: Kind, s: string, i: nat): (h: Option<Hit>)
    requires i < |s|
    ensures h.Some? ==> i + h.value.length <= |s| && |h.value.content| < h.value.length
  {
    match kind
    case LinkKind => LinkHit(s, i)
    case CodeKind => CodeHit(s, i)
    case StrikeKind => PairHit(s, i, '~')
    case BoldKind => if PairHit(s, i, '*').Some? then PairHit(s, i, '*') else PairHit(s, i, '_')
    case ItalicKind => if SingleHit(s, i, '*').Some? then SingleHit(s, i, '*') else SingleHit(s, i, '_')
  }

  // ---- Searching ----

  /** The match stays inside `s`, and what it captures is shorter than what it covers. */
  predicate Fits(f: Option<Found>, s: string) {
    f.Some? ==> f.value.index + f.value.hit.length <= |s| && |f.value.hit.content| < f.value.hit.length
  }

  /** The leftmost match of one pattern from place `i` on. */
  function Search(kind: Kind, s: string, i: nat): (f: Option<Found>)
    requires i <= |s|
    ensures Fits(f, s)
    decreases |s| - i
  {
    if i == |s| then None
    else
      match HitAt(kind, s, i)
      case Some(hit) => Some(Found(i, kind, hit))
      case None => Search(kind, s, i + 1)
  }

  /** The earlier of two matches; the first one on a tie. */
  function Earlier(a: Option<Found>, b: Option<Found>): Option<Found> {
    if b.Some? && (a.None? || b.value.index < a.value.index) then b else a
  }

  function FindNext(s: string): (f: Option<Found>)
    ensures Fits(f, s)
  {
    Earlier(Earlier(Earlier(Earlier(
      Search(LinkKind, s, 0), Search(CodeKind, s, 0)), Search(StrikeKind, s, 0)),
      Search(BoldKind, s, 0)), Search(ItalicKind, s, 0))
  }

  // ---- Building inline items ----

  function RestyleSpans(spans: seq<Span>, style: Style): (r: seq<Span>)
    ensures |r| == |spans|
  {
    if spans == [] then []
    else [Span(spans[0].text, spans[0].styles + {style})] + RestyleSpans(spans[1..], style)
  }

  function RestyleItem(item: Inline, style: Style): Inline {
    match item
    case Styled(span) => Styled(Span(span.text, span.styles + {style}))
    case Link(href, spans) => Link(href, RestyleSpans(spans, style))
  }

  function Restyle(items: seq<Inline>, style: Style): (r: seq<Inline>)
    ensures |r| == |items|
  {
    if items == [] then [] else [RestyleItem(items[0], style)] + Restyle(items[1..], style)
  }

  /** A link label keeps styled runs; a link inside it becomes its text. */
  function LabelSpans(items: seq<Inline>): seq<Span> {
    if items == [] then []
    else [if items[0].Styled? then items[0].span else Span(ItemText(items[0]), {})] + LabelSpans(items[1..])
  }

  function NormalizeLinkTarget(value: string): string {
    var t := Trim(value);
    if |t| >= 3 && t[0] == '<' && t[|t| - 1] == '>' && DotOnly(t[1..|t| - 1]) then t[1..|t| - 1] else t
  }

  function TextItems(text: string): seq<Inline> {
    if text == "" then [] else [Plain(text)]
  }

  function StyleOf(kind: Kind): Style {
    match kind
    case StrikeKind => Strike
    case BoldKind => Bold
    case _ => Italic
  }

  /** What a match becomes, given the inline items of its captured text. */
  function Convert(kind: Kind, hit: Hit, inner: seq<Inline>): seq<Inline> {
    match kind
    case LinkKind => [Link(NormalizeLinkTarget(hit.href), LabelSpans(inner))]
    case CodeKind => [Styled(Span(hit.content, {Code}))]
    case _ => Restyle(inner, StyleOf(kind))
  }

  /** The inline items of a text: the earliest match is converted, then the rest is scanned afresh. */
  function ParseInline(markdown: string): seq<Inline>
    decreases |markdown|
  {
    if markdown == "" then []
    else
      match FindNext(markdown)
      case None => [Plain(markdown)]
      case Some(Found(index, kind, hit)) =>
        TextItems(markdown[..index])
        + Convert(kind, hit, ParseInline(hit.content))
        + ParseInline(markdown[index + hit.length..])
  }

  lemma ParseInlineStep(source: string, index: nat, kind: Kind, hit: Hit)
    requires FindNext(source) == Some(Found(index, kind, hit)) && source != ""
    ensures ParseInline(source)
         == TextItems(source[..index]) + Convert(kind, hit, ParseInline(hit.content))
            + ParseInline(source[index + hit.length..])
  {
    hide FindNext, Convert, TextItems;
  }

  lemma StepAppended(before: seq<Inline>, source: string, index: nat, kind: Kind, hit: Hit, after: seq<Inline>)
    requires source != "" && FindNext(source) == Some(Found(index, kind, hit))
    requires after == before + TextItems(source[..index]) + Convert(kind, hit, ParseInline(hit.content))
    ensures after + ParseInline(source[index + hit.length..]) == before + ParseInline(source)
  {
    ParseInlineStep(source, index, kind, hit);
    hide *;
    Regroup(before, TextItems(source[..index]), Convert(kind, hit, ParseInline(hit.content)),
      ParseInline(source[index + hit.length..]));
  }

  lemma InBounds(source: string, index: nat, kind: Kind, hit: Hit)
    requires FindNext(source) == Some(Found(index, kind, hit))
    ensures index + hit.length <= |source| && |hit.content| < hit.length
  {
    assert Fits(FindNext(source), source);
  }

  lemma NoMatchLeft(source: string)
    requires source != "" && FindNext(source).None?
    ensures ParseInline(source) == [Plain(source)]
  {
    hide FindNext;
  }

  lemma ParseInlineEmpty()
    ensures ParseInline("") == []
  {
  }

  lemma CodeIgnoresInner(hit: Hit, a: seq<Inline>, b: seq<Inline>)
    ensures Convert(CodeKind, hit, a) == Convert(CodeKind, hit, b)
  {
  }

  lemma TextItemsIs(text: string)
    ensures text == "" ==> TextItems(text) == []
    ensures text != "" ==> TextItems(text) == [Plain(text)]
  {
  }

  /** The scanning loop: it computes ParseInline, and it ends for every text. */
  method ParseInlineContent(markdown: string) returns (result: seq<Inline>)
    ensures result == ParseInline(markdown)
    decreases |markdown|
  {
    hide *;
    result := [];
    var currentIndex := 0;
    assert markdown[0..] == markdown;
    while currentIndex < |markdown|
      invariant currentIndex <= |markdown|
      invariant result + ParseInline(markdown[currentIndex..]) == ParseInline(markdown)
    {
      var source := markdown[currentIndex..];
      var next := FindNext(source);
      if next.None? {
        NoMatchLeft(source);
        return result + [Plain(source)];
      }
      var Found(index, kind, hit) := next.value;
      InBounds(source, index, kind, hit);
      ghost var before := result;
      TextItemsIs(source[..index]);
      if index > 0 {
        result := result + [Plain(source[..index])];
      }
      var inner := [];
      if kind == CodeKind {
        CodeIgnoresInner(hit, inner, ParseInline(hit.content));
      } else {
        inner := ParseInlineContent(hit.content);
      }
      result := result + Convert(kind, hit, inner);
      StepAppended(before, source, index, kind, hit, result);
      assert markdown[currentIndex + index + hit.length..] == source[index + hit.length..];
      currentIndex := currentIndex + index + hit.length;
    }
    ParseInlineEmpty();
    assert markdown[currentIndex..] == "";
  }
}
