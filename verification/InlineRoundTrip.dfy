/** Scanning printed inline items gives the items back. */
module InlineRoundTrip {
  import opened Text
  import opened DocumentTypes
  import opened InlineParser
  import opened InlineText
  import opened InlineRenderer

  /** A character that neither opens a match nor is escaped. */
  predicate IsPlainChar(c: char) {
    !IsDelimiter(c) && c !in TEXT_SPECIALS
  }

  predicate PlainChars(s: string) {
    forall c <- s :: IsPlainChar(c)
  }

  predicate IsPlain(item: Inline) {
    item.Styled? && item.span.styles == {}
  }

  /** Text that can stand between two markers of its own. */
  predicate MarkedText(s: string) {
    s != "" && PlainChars(s) && '\n' !in s
  }

  predicate SpanComesBack(span: Span) {
    if span.styles == {} then span.text != "" && PlainChars(span.text)
    else if Code in span.styles then
      span.styles == {Code} && span.text != "" && '`' !in span.text && '\n' !in span.text
    else MarkedText(span.text) && !(Bold in span.styles && Italic in span.styles)
  }

  predicate TargetComesBack(href: string) {
    && href != "" && '\n' !in href
    && (forall c <- href :: c !in TARGET_SPECIALS)
    && NormalizeLinkTarget(href) == href
  }

  predicate LabelComesBack(spans: seq<Span>) {
    spans == [] || (|spans| == 1 && spans[0].styles == {} && MarkedText(spans[0].text))
  }

  predicate ItemComesBack(item: Inline) {
    match item
    case Styled(span) => SpanComesBack(span)
    case Link(href, spans) => TargetComesBack(href) && LabelComesBack(spans)
  }

  predicate StartsWithStar(item: Inline) {
    item.Styled? && Strike !in item.span.styles && (Bold in item.span.styles || Italic in item.span.styles)
  }

  /** Two items that may stand next to each other: their markers do not run together. */
  predicate Compatible(a: Inline, b: Inline) {
    && !(IsPlain(a) && IsPlain(b))
    && !(IsPlain(a) && a.span.text != "" && a.span.text[|a.span.text| - 1] == '!' && b.Link?)
    && !(a.Styled? && a.span.styles == {Italic} && StartsWithStar(b))
  }

  predicate ComesBack(items: seq<Inline>) {
    && (forall item <- items :: ItemComesBack(item))
    && (forall i | 0 <= i < |items| - 1 :: Compatible(items[i], items[i + 1]))
  }

  // ---- Matches at the front of a text ----

  lemma {:induction false} RunEndIs(s: string, i: nat, stop: char, r: nat)
    requires i <= r < |s| && s[r] == stop
    requires forall k | i <= k < r :: s[k] != stop && s[k] != '\n'
    ensures RunEnd(s, i, stop) == r
    decreases r - i
  {
    if i < r {
      RunEndIs(s, i + 1, stop, r);
    }
  }

  lemma {:induction false} PairEndIs(s: string, j: nat, m: char, r: nat)
    requires j <= r && r + 1 < |s| && s[r] == m && s[r + 1] == m
    requires forall k | j <= k < r :: s[k] != m && s[k] != '\n'
    ensures PairEnd(s, j, m) == r
    decreases r - j
  {
    if j < r {
      PairEndIs(s, j + 1, m, r);
    }
  }

  /** What the scanner must report at the very front of a text. */
  ghost predicate OnlyHitAtFront(s: string, kind: Kind, hit: Hit) {
    && s != "" && HitAt(kind, s, 0) == Some(hit)
    && forall k: Kind | k != kind :: HitAt(k, s, 0).None?
  }

  lemma CodeFront(text: string, rest: string)
    requires text != "" && '`' !in text && '\n' !in text
    ensures OnlyHitAtFront("`" + text + "`" + rest, CodeKind, Hit(|text| + 2, text, ""))
  {
    var s := "`" + text + "`" + rest;
    RunEndIs(s, 1, '`', |text| + 1);
    assert s[1..|text| + 1] == text;
  }

  lemma LinkFront(text: string, href: string, rest: string)
    requires ']' !in text && '\n' !in text
    requires href != "" && ')' !in href && '\n' !in href
    ensures OnlyHitAtFront("[" + text + "](" + href + ")" + rest, LinkKind, Hit(|text| + |href| + 4, text, href))
  {
    var s := "[" + text + "](" + href + ")" + rest;
    var j := |text| + 1;
    assert forall k | 1 <= k < j :: s[k] == text[k - 1];
    RunEndIs(s, 1, ']', j);
    var k := j + 2 + |href|;
    assert forall i | j + 2 <= i < k :: s[i] == href[i - j - 2];
    RunEndIs(s, j + 2, ')', k);
    assert s[1..j] == text && s[j + 2..k] == href;
  }

  lemma PairFront(kind: Kind, m: char, text: string, rest: string)
    requires (kind == BoldKind && m == '*') || (kind == StrikeKind && m == '~')
    requires text != "" && m !in text && '\n' !in text
    ensures OnlyHitAtFront([m, m] + text + [m, m] + rest, kind, Hit(|text| + 4, text, ""))
  {
    var s := [m, m] + text + [m, m] + rest;
    var j := |text| + 2;
    assert forall k | 2 <= k < j :: s[k] == text[k - 2];
    PairEndIs(s, 3, m, j);
    assert s[2..j] == text;
  }

  lemma ItalicFront(text: string, rest: string)
    requires text != "" && '*' !in text && '\n' !in text
    requires rest == "" || rest[0] != '*'
    ensures OnlyHitAtFront("*" + text + "*" + rest, ItalicKind, Hit(|text| + 2, text, ""))
  {
    var s := "*" + text + "*" + rest;
    var j := |text| + 1;
    assert forall k | 1 <= k < j :: s[k] == text[k - 1];
    RunEndIs(s, 1, '*', j);
    assert s[1..j] == text;
  }

  lemma FrontIsFound(s: string, kind: Kind, hit: Hit)
    requires OnlyHitAtFront(s, kind, hit)
    ensures FindNext(s) == Some(Found(0, kind, hit))
  {
    hide HitAt, Search;
    SearchIsLeftmost(LinkKind, s, 0);
    SearchIsLeftmost(CodeKind, s, 0);
    SearchIsLeftmost(StrikeKind, s, 0);
    SearchIsLeftmost(BoldKind, s, 0);
    SearchIsLeftmost(ItalicKind, s, 0);
  }

  // ---- Plain text in front of a match ----

  lemma {:induction false} RunEndShift(t: string, s: string, i: nat, stop: char)
    requires i <= |s|
    ensures RunEnd(t + s, |t| + i, stop) == |t| + RunEnd(s, i, stop)
    decreases |s| - i
  {
    if i < |s| {
      RunEndShift(t, s, i + 1, stop);
    }
  }

  lemma {:induction false} PairEndShift(t: string, s: string, j: nat, m: char)
    requires j <= |s|
    ensures PairEnd(t + s, |t| + j, m) == |t| + PairEnd(s, j, m)
    decreases |s| - j
  {
    if j < |s| {
      PairEndShift(t, s, j + 1, m);
    }
  }

  /** The character before the front does not keep a match from being seen. */
  predicate OpenFront(t: string, s: string) {
    t == "" || (var c := t[|t| - 1]; c != '*' && c != '_' && (c != '!' || s == "" || s[0] != '['))
  }

  lemma LinkShift(t: string, s: string)
    requires s != "" && OpenFront(t, s)
    ensures LinkHit(t + s, |t|) == LinkHit(s, 0)
  {
    hide RunEnd;
    RunEndShift(t, s, 1, ']');
    var j := RunEnd(s, 1, ']');
    if j + 2 <= |s| {
      RunEndShift(t, s, j + 2, ')');
      var k := RunEnd(s, j + 2, ')');
      assert (t + s)[|t| + 1..|t| + j] == s[1..j];
      assert (t + s)[|t| + j + 2..|t| + k] == s[j + 2..k];
    }
  }

  lemma CodeShift(t: string, s: string)
    requires s != ""
    ensures CodeHit(t + s, |t|) == CodeHit(s, 0)
  {
    hide RunEnd;
    RunEndShift(t, s, 1, '`');
    var j := RunEnd(s, 1, '`');
    assert (t + s)[|t| + 1..|t| + j] == s[1..j];
  }

  lemma PairShift(t: string, s: string, m: char)
    requires s != ""
    ensures PairHit(t + s, |t|, m) == PairHit(s, 0, m)
  {
    hide PairEnd;
    if 3 < |s| {
      PairEndShift(t, s, 3, m);
      var j := PairEnd(s, 3, m);
      assert (t + s)[|t| + 2..|t| + j] == s[2..j];
    }
  }

  lemma SingleShift(t: string, s: string, m: char)
    requires s != "" && (t == "" || t[|t| - 1] != m)
    ensures SingleHit(t + s, |t|, m) == SingleHit(s, 0, m)
  {
    hide RunEnd;
    RunEndShift(t, s, 1, m);
    var j := RunEnd(s, 1, m);
    assert (t + s)[|t| + 1..|t| + j] == s[1..j];
  }

  lemma HitShift(kind: Kind, t: string, s: string)
    requires s != "" && OpenFront(t, s)
    ensures HitAt(kind, t + s, |t|) == HitAt(kind, s, 0)
  {
    hide LinkHit, CodeHit, PairHit, SingleHit;
    LinkShift(t, s);
    CodeShift(t, s);
    PairShift(t, s, '~');
    PairShift(t, s, '*');
    PairShift(t, s, '_');
    SingleShift(t, s, '*');
    SingleShift(t, s, '_');
  }

  lemma SearchSkipsPlain(kind: Kind, t: string, s: string)
    requires PlainChars(t) && s != "" && OpenFront(t, s)
    ensures
      match HitAt(kind, s, 0)
      case Some(hit) => Search(kind, t + s, 0) == Some(Found(|t|, kind, hit))
      case None => Search(kind, t + s, 0).Some? ==> Search(kind, t + s, 0).value.index > |t|
  {
    hide HitAt, Search;
    HitShift(kind, t, s);
    SearchIsLeftmost(kind, t + s, 0);
    forall i | 0 <= i < |t| ensures HitAt(kind, t + s, i).None? {
      assert (t + s)[i] == t[i] && t[i] in t && IsPlainChar(t[i]);
      NoHitWithoutDelimiter(kind, t + s, i);
    }
  }

  /** Plain text in front of a match becomes a run of its own. */
  lemma PlainThenFront(t: string, s: string, kind: Kind, hit: Hit)
    requires t != "" && PlainChars(t) && OpenFront(t, s)
    requires OnlyHitAtFront(s, kind, hit)
    ensures ParseInline(t + s) == [Plain(t)] + ParseInline(s)
  {
    hide HitAt, Search, ParseInline, Convert;
    SearchSkipsPlain(LinkKind, t, s);
    SearchSkipsPlain(CodeKind, t, s);
    SearchSkipsPlain(StrikeKind, t, s);
    SearchSkipsPlain(BoldKind, t, s);
    SearchSkipsPlain(ItalicKind, t, s);
    assert FindNext(t + s) == Some(Found(|t|, kind, hit));
    FrontIsFound(s, kind, hit);
    ParseInlineStep(t + s, |t|, kind, hit);
    ParseInlineStep(s, 0, kind, hit);
    InBounds(s, 0, kind, hit);
    assert (t + s)[..|t|] == t;
    assert (t + s)[|t| + hit.length..] == s[hit.length..];
    assert s[..0] == "";
  }

  // ---- One item, then whatever follows ----

  lemma PlainCharsHaveNoMarkers(s: string)
    requires PlainChars(s)
    ensures '*' !in s && '~' !in s && '`' !in s && ')' !in s && ']' !in s
    ensures Escape(s, TEXT_SPECIALS) == s && Escape(s, LABEL_SPECIALS) == s
    ensures ParseInline(s) == TextItems(s)
  {
    hide *;
    hide Escape;
    assert forall c <- s :: IsPlainChar(c) by { PlainCharsMeans(s); }
    forall c <- s ensures c !in TEXT_SPECIALS && c !in LABEL_SPECIALS && !IsDelimiter(c)
      && c != '*' && c != '~' && c != '`' && c != ')' && c != ']' {
      PlainCharMeans(c);
    }
    NothingToEscape(s, TEXT_SPECIALS);
    NothingToEscape(s, LABEL_SPECIALS);
    MarkupFreeText(s);
  }

  lemma PlainCharsMeans(s: string)
    requires PlainChars(s)
    ensures forall c <- s :: IsPlainChar(c)
  {
  }

  lemma PlainCharMeans(c: char)
    requires IsPlainChar(c)
    ensures c !in TEXT_SPECIALS && c !in LABEL_SPECIALS && !IsDelimiter(c)
    ensures c != '*' && c != '~' && c != '`' && c != ')' && c != ']'
  {
  }

  /** How one styled item is printed, and what the scanner captures of it. */
  function HitOf(item: Inline): (Kind, Hit)
    requires ItemComesBack(item) && !IsPlain(item)
  {
    match item
    case Link(href, spans) =>
      var text := if spans == [] then "" else spans[0].text;
      (LinkKind, Hit(|text| + |href| + 4, text, href))
    case Styled(Span(text, styles)) =>
      if Code in styles then (CodeKind, Hit(|text| + 2, text, ""))
      else if Strike in styles then
        var inner := RenderSpan(Span(text, styles - {Strike}));
        (StrikeKind, Hit(|inner| + 4, inner, ""))
      else if Bold in styles then (BoldKind, Hit(|text| + 4, text, ""))
      else (ItalicKind, Hit(|text| + 2, text, ""))
  }

  lemma NoBackticksNoRun(s: string)
    requires '`' !in s
    ensures LongestBacktickRun(s) == 0
  {
  }

  lemma StylesInside(styles: set<Style>)
    requires Code !in styles && Strike in styles
    ensures var rest := styles - {Strike};
            && Code !in rest && Strike !in rest
            && (Bold in rest <==> Bold in styles) && (Italic in rest <==> Italic in styles)
            && (Bold !in rest && Italic !in rest ==> rest == {})
  {
    var rest := styles - {Strike};
    if Bold !in rest && Italic !in rest {
      forall x ensures x !in rest {
        match x { case Bold => case Italic => case Strike => case Code => }
      }
    }
  }

  /** The inside of a strike-through: the same run without it. */
  lemma StrikeInside(text: string, styles: set<Style>)
    requires SpanComesBack(Span(text, styles)) && Strike in styles
    ensures SpanComesBack(Span(text, styles - {Strike}))
    ensures var inner := RenderSpan(Span(text, styles - {Strike}));
            && inner != "" && '~' !in inner && '\n' !in inner
            && RenderSpan(Span(text, styles)) == "~~" + inner + "~~"
  {
    assert Code !in styles;
    StylesInside(styles);
    PlainCharsHaveNoMarkers(text);
    hide Escape, ParseInline, IsPlainChar;
  }

  lemma {:induction false} ItemFront(item: Inline, rest: string)
    requires ItemComesBack(item) && !IsPlain(item)
    requires item.Styled? && item.span.styles == {Italic} ==> rest == "" || rest[0] != '*'
    ensures var (kind, hit) := HitOf(item);
            && hit.length == |RenderItem(item)|
            && OnlyHitAtFront(RenderItem(item) + rest, kind, hit)
  {
    hide Escape, ParseInline, HitAt, OnlyHitAtFront, LongestBacktickRun, NormalizeLinkTarget;
    match item {
      case Link(href, spans) =>
        var text := if spans == [] then "" else spans[0].text;
        if spans != [] {
          PlainCharsHaveNoMarkers(text);
          assert spans[1..] == [];
          assert RenderLabel(spans) == text;
        }
        NothingToEscape(href, TARGET_SPECIALS);
        LinkFront(text, href, rest);
      case Styled(Span(text, styles)) =>
        if Code in styles {
          NoBackticksNoRun(text);
          assert RenderItem(item) == "`" + text + "`";
          CodeFront(text, rest);
        } else {
          PlainCharsHaveNoMarkers(text);
          if Strike in styles {
            StrikeInside(text, styles);
            PairFront(StrikeKind, '~', RenderSpan(Span(text, styles - {Strike})), rest);
          } else if Bold in styles {
            assert RenderItem(item) == "**" + text + "**";
            PairFront(BoldKind, '*', text, rest);
          } else {
            SomeStyle(styles);
            assert styles == {Italic};
            assert RenderItem(item) == "*" + text + "*";
            ItalicFront(text, rest);
          }
        }
    }
  }

  lemma SomeStyle(styles: set<Style>)
    requires styles != {} && Code !in styles && Strike !in styles && Bold !in styles
    ensures styles == {Italic}
  {
    var x :| x in styles;
    assert forall y <- styles :: y == Italic;
  }

  /** An item whose capture converts back is scanned as that item, then the rest is scanned. */
  lemma ItemThenRest(item: Inline, rest: string)
    requires ItemComesBack(item) && !IsPlain(item)
    requires item.Styled? && item.span.styles == {Italic} ==> rest == "" || rest[0] != '*'
    requires var (kind, hit) := HitOf(item); Convert(kind, hit, ParseInline(hit.content)) == [item]
    ensures ParseInline(RenderItem(item) + rest) == [item] + ParseInline(rest)
  {
    hide *;
    var (kind, hit) := HitOf(item);
    var s := RenderItem(item) + rest;
    ItemFront(item, rest);
    FrontIsFound(s, kind, hit);
    FrontNotEmpty(s, kind, hit);
    ParseInlineStep(s, 0, kind, hit);
    TextItemsIs(s[..0]);
    assert s[0 + hit.length..] == rest;
  }

  lemma FrontNotEmpty(s: string, kind: Kind, hit: Hit)
    requires OnlyHitAtFront(s, kind, hit)
    ensures s != ""
  {
  }

  predicate Struck(item: Inline) {
    item.Styled? && Strike in item.span.styles
  }

  lemma ConvertUnstruck(item: Inline)
    requires ItemComesBack(item) && !IsPlain(item) && !Struck(item)
    ensures var (kind, hit) := HitOf(item); Convert(kind, hit, ParseInline(hit.content)) == [item]
  {
    hide ParseInline, RenderSpan, NormalizeLinkTarget;
    match item {
      case Link(href, spans) =>
        PlainCharsHaveNoMarkers(if spans == [] then "" else spans[0].text);
        if spans != [] {
          assert spans == [spans[0]];
          assert [Plain(spans[0].text)][1..] == [];
          assert LabelSpans([Plain(spans[0].text)]) == spans;
        }
      case Styled(Span(text, styles)) =>
        if Code !in styles {
          PlainCharsHaveNoMarkers(text);
          if Bold in styles {
            assert forall x <- styles :: x == Bold;
            assert styles == {} + {Bold};
          } else {
            SomeStyle(styles);
            assert styles == {} + {Italic};
          }
        }
    }
  }

  lemma OneUnstruck(item: Inline)
    requires ItemComesBack(item) && item.Styled? && !Struck(item)
    ensures ParseInline(RenderItem(item)) == [item]
  {
    hide ParseInline, HitAt, Escape;
    if IsPlain(item) {
      PlainCharsHaveNoMarkers(item.span.text);
      assert RenderItem(item) == item.span.text;
    } else {
      ConvertUnstruck(item);
      ItemThenRest(item, "");
      assert RenderItem(item) + "" == RenderItem(item);
      ParseInlineEmpty();
    }
  }

  /** What the scanner captured of an item is turned back into that item. */
  lemma ConvertGivesItem(item: Inline)
    requires ItemComesBack(item) && !IsPlain(item)
    ensures var (kind, hit) := HitOf(item); Convert(kind, hit, ParseInline(hit.content)) == [item]
  {
    if Struck(item) {
      hide ParseInline, RenderSpan, Escape;
      var Span(text, styles) := item.span;
      StrikeInside(text, styles);
      OneUnstruck(Styled(Span(text, styles - {Strike})));
      assert styles - {Strike} + {Strike} == styles;
    } else {
      ConvertUnstruck(item);
    }
  }

  lemma ItemStart(item: Inline)
    requires ItemComesBack(item)
    ensures var r := RenderItem(item);
            && r != ""
            && (IsPlain(item) ==> r == item.span.text)
            && (r[0] == '*' ==> StartsWithStar(item))
            && (r[0] == '[' ==> item.Link?)
  {
    hide Escape, ParseInline, LongestBacktickRun, NormalizeLinkTarget;
    if item.Styled? && Code !in item.span.styles {
      var Span(text, styles) := item.span;
      PlainCharsHaveNoMarkers(text);
      assert text[0] in text && IsPlainChar(text[0]);
      if styles != {} && Strike !in styles && Bold !in styles {
        SomeStyle(styles);
      }
    }
  }

  lemma RenderInlineStep(items: seq<Inline>)
    requires items != []
    ensures RenderInline(items) == RenderItem(items[0]) + RenderInline(items[1..])
  {
  }

  lemma ComesBackSplits(items: seq<Inline>)
    requires ComesBack(items) && items != []
    ensures ItemComesBack(items[0]) && ComesBack(items[1..])
    ensures |items| > 1 ==> ItemComesBack(items[1]) && Compatible(items[0], items[1])
  {
    hide ItemComesBack, Compatible;
    var rest := items[1..];
    forall i | 0 <= i < |rest| - 1 ensures Compatible(rest[i], rest[i + 1]) {
      assert Compatible(items[i + 1], items[i + 1 + 1]);
    }
  }

  /** A plain run in front of items that do not start with another one. */
  lemma PlainThenItems(item: Inline, rest: seq<Inline>)
    requires ItemComesBack(item) && IsPlain(item) && ComesBack(rest)
    requires rest != [] ==> Compatible(item, rest[0])
    ensures ParseInline(RenderItem(item) + RenderInline(rest)) == [item] + ParseInline(RenderInline(rest))
  {
    hide *;
    ItemStart(item);
    PlainOnly(item);
    RenderNothing();
    if rest == [] {
      assert item.span.text + "" == item.span.text;
      ParseInlineEmpty();
    } else {
      var next, more := rest[0], rest[1..];
      CompatibleMeans(item, next);
      ComesBackSplits(rest);
      RenderInlineStep(rest);
      ItemStart(next);
      if more != [] {
        RenderInlineStep(more);
        ItemStart(more[0]);
        CompatibleMeans(next, more[0]);
      }
      var (kind, hit) := HitOf(next);
      ItemFront(next, RenderInline(more));
      FrontIsOpen(item, next, RenderInline(rest));
      PlainThenFront(item.span.text, RenderInline(rest), kind, hit);
    }
  }

  /** Printing inline items and scanning the text again gives the same items: plain runs, bold,
      italic, strike-through (also around bold or italic), inline code and links, in any
      sequence in which neighbouring markers do not run together. */
  lemma {:induction false} InlineRoundTrip(items: seq<Inline>)
    requires ComesBack(items)
    ensures ParseInline(RenderInline(items)) == items
    decreases |items|
  {
    if items == [] {
      ParseInlineEmpty();
      return;
    }
    ComesBackSplits(items);
    hide *;
    var item, rest := items[0], items[1..];
    var tail := RenderInline(rest);
    RenderInlineStep(items);
    InlineRoundTrip(rest);
    ItemStart(item);
    if rest == [] {
      RenderNothing();
    } else {
      RenderInlineStep(rest);
      ItemStart(rest[0]);
      CompatibleMeans(item, rest[0]);
    }
    if IsPlain(item) {
      PlainThenItems(item, rest);
    } else {
      ConvertGivesItem(item);
      ItemThenRest(item, tail);
    }
    assert [item] + rest == items;
  }

  lemma RenderNothing()
    ensures RenderInline([]) == ""
  {
  }

  lemma PlainOnly(item: Inline)
    requires ItemComesBack(item) && IsPlain(item)
    ensures item.Styled? && item.span.text != "" && PlainChars(item.span.text)
    ensures item == Plain(item.span.text)
    ensures ParseInline(item.span.text) == [item]
  {
    PlainCharsHaveNoMarkers(item.span.text);
  }

  lemma CompatibleMeans(a: Inline, b: Inline)
    requires Compatible(a, b)
    ensures IsPlain(a) ==> !IsPlain(b)
    ensures a.Styled? && a.span.styles == {Italic} ==> !StartsWithStar(b)
  {
  }

  lemma FrontIsOpen(a: Inline, b: Inline, tail: string)
    requires ItemComesBack(a) && IsPlain(a) && Compatible(a, b)
    requires tail != "" && (tail[0] == '[' ==> b.Link?)
    ensures OpenFront(a.span.text, tail)
  {
    var t := a.span.text;
    assert t[|t| - 1] in t && IsPlainChar(t[|t| - 1]);
  }

  // ---- Bold and italic on the same run ----

  lemma TripleStarFront(text: string)
    requires MarkedText(text)
    ensures OnlyHitAtFront("***" + text + "***", BoldKind, Hit(|text| + 5, "*" + text, ""))
  {
    hide PairEnd, RunEnd;
    TripleStarText(text);
    var s := "***" + text + "***";
    PairEndIs(s, 3, '*', |text| + 3);
    RunEndIs(s, 1, '*', 1);
  }

  lemma TripleStarText(text: string)
    requires MarkedText(text)
    ensures var s, j := "***" + text + "***", |text| + 3;
            && (forall k | 3 <= k < j :: s[k] != '*' && s[k] != '\n')
            && s[0] == s[1] == s[2] == s[j] == s[j + 1] == '*' && s[2..j] == "*" + text
  {
    hide ParseInline, Escape, IsPlainChar;
    PlainCharsHaveNoMarkers(text);
    var s, j := "***" + text + "***", |text| + 3;
    forall k | 3 <= k < j ensures s[k] != '*' && s[k] != '\n' {
      assert s[k] == text[k - 3] && text[k - 3] in text;
    }
    assert s[2..j] == "*" + text;
  }

  /** Bold around italic is read as bold around a stray star, and a second star is left over. */
  lemma BoldItalicLeavesStar(text: string)
    requires MarkedText(text)
    ensures var r := ParseInline("***" + text + "***"); r != [] && r[|r| - 1] == Plain("*")
  {
    hide *;
    var s := "***" + text + "***";
    var hit := Hit(|text| + 5, "*" + text, "");
    TripleStarFront(text);
    FrontIsFound(s, BoldKind, hit);
    ParseInlineStep(s, 0, BoldKind, hit);
    assert s[0 + hit.length..] == "*";
    LoneStar();
  }

  lemma LoneStar()
    ensures ParseInline("*") == [Plain("*")]
  {
    hide Search, HitAt;
    forall kind: Kind ensures Search(kind, "*", 0).None? {
      SearchIsLeftmost(kind, "*", 0);
      assert HitAt(kind, "*", 0).None? by {
        hide Search;
        NoHitInLoneStar(kind);
      }
    }
  }

  lemma NoHitInLoneStar(kind: Kind)
    ensures HitAt(kind, "*", 0).None?
  {
  }

  lemma {:induction false} RestyleLast(items: seq<Inline>, style: Style)
    requires items != []
    ensures Restyle(items, style) != []
    ensures Restyle(items, style)[|items| - 1] == RestyleItem(items[|items| - 1], style)
  {
    hide RestyleItem;
    if |items| > 1 {
      RestyleLast(items[1..], style);
      assert items[1..][|items| - 2] == items[|items| - 1];
    }
  }

  lemma StrikeConvert(hit: Hit, inner: seq<Inline>)
    ensures Convert(StrikeKind, hit, inner) == Restyle(inner, Strike)
  {
  }

  /** A strike-through around any printed run is read as that run, struck. */
  lemma StruckText(inner: string)
    requires inner != "" && '~' !in inner && '\n' !in inner
    ensures ParseInline("~~" + inner + "~~") == Restyle(ParseInline(inner), Strike)
  {
    hide *;
    var s := "~~" + inner + "~~";
    var hit := Hit(|inner| + 4, inner, "");
    PairFront(StrikeKind, '~', inner, "");
    assert ['~', '~'] + inner + ['~', '~'] + "" == s;
    FrontIsFound(s, StrikeKind, hit);
    ParseInlineStep(s, 0, StrikeKind, hit);
    TextItemsIs(s[..0]);
    assert s[0 + hit.length..] == "";
    ParseInlineEmpty();
    StrikeConvert(hit, ParseInline(inner));
  }

  lemma BoldItalicIsPrintedAs(text: string, styles: set<Style>)
    requires MarkedText(text) && Code !in styles && Bold in styles && Italic in styles
    ensures var inner := "***" + text + "***";
            && RenderSpan(Span(text, styles)) == (if Strike in styles then "~~" + inner + "~~" else inner)
            && '~' !in inner && '\n' !in inner
  {
    hide Escape, ParseInline, PlainChars, Wrap;
    PlainCharsHaveNoMarkers(text);
    WrapTwice(text);
    WrapIs("~~", "***" + text + "***");
    TripleStarIsClean(text);
  }

  lemma WrapTwice(text: string)
    ensures Wrap("**", Wrap("*", text)) == "***" + text + "***"
  {
    assert "**" + ("*" + text + "*") + "**" == "***" + text + "***";
  }

  lemma WrapIs(marker: string, text: string)
    ensures Wrap(marker, text) == marker + text + marker
  {
  }

  lemma TripleStarIsClean(text: string)
    requires '~' !in text && '\n' !in text
    ensures '~' !in "***" + text + "***" && '\n' !in "***" + text + "***"
  {
  }

  lemma BoldItalicIsLost(text: string, styles: set<Style>)
    requires MarkedText(text) && Code !in styles && Bold in styles && Italic in styles
    ensures ParseInline(RenderSpan(Span(text, styles))) != [Styled(Span(text, styles))]
  {
    hide *;
    var inner := "***" + text + "***";
    BoldItalicIsPrintedAs(text, styles);
    BoldItalicLeavesStar(text);
    var parsed := ParseInline(inner);
    StarHasNoBold();
    if Strike in styles {
      StruckText(inner);
      RestyleLast(parsed, Strike);
    }
  }

  lemma StarHasNoBold()
    ensures Plain("*") == Styled(Span("*", {}))
    ensures RestyleItem(Plain("*"), Strike) == Styled(Span("*", {} + {Strike}))
    ensures Bold !in {} + {Strike}
  {
  }

  /** A run of markup-free text in any of the three text styles comes back from its printed form
      exactly when it is not bold and italic at once. */
  lemma StyledRunComesBackIff(text: string, styles: set<Style>)
    requires MarkedText(text) && Code !in styles
    ensures ParseInline(RenderSpan(Span(text, styles))) == [Styled(Span(text, styles))]
       <==> !(Bold in styles && Italic in styles)
  {
    if Bold in styles && Italic in styles {
      BoldItalicIsLost(text, styles);
    } else {
      hide ParseInline, Escape;
      var item := Styled(Span(text, styles));
      InlineRoundTrip([item]);
      assert RenderInline([item]) == RenderItem(item) + RenderInline([item][1..]);
      assert RenderItem(item) + "" == RenderItem(item);
    }
  }

  // ---- Characters that are escaped ----

  lemma {:induction false} EscapeGrows(s: string, special: set<char>)
    ensures |Escape(s, special)| >= |s|
    ensures |Escape(s, special)| == |s| <==> forall c <- s :: c !in special
  {
    if s != "" {
      EscapeGrows(s[1..], special);
      assert (forall c <- s :: c !in special) <==> s[0] !in special && forall c <- s[1..] :: c !in special;
    }
  }

  lemma {:induction false} EscapeChars(s: string, special: set<char>)
    ensures forall c <- Escape(s, special) :: c == '\\' || c in s
  {
    if s != "" {
      EscapeChars(s[1..], special);
    }
  }

  /** Unstyled text without delimiters comes back from its printed form if and only if it holds no
      character that is escaped: the backslashes are never taken off again. */
  lemma PlainTextComesBackIff(t: string)
    requires t != "" && forall c <- t :: !IsDelimiter(c)
    ensures ParseInline(RenderSpan(Span(t, {}))) == [Plain(t)] <==> forall c <- t :: c !in TEXT_SPECIALS
  {
    hide ParseInline, Escape, IsDelimiter;
    var printed := Escape(t, TEXT_SPECIALS);
    EscapeGrows(t, TEXT_SPECIALS);
    EscapeChars(t, TEXT_SPECIALS);
    assert !IsDelimiter('\\') by { BackslashIsPlain(); }
    MarkupFreeText(printed);
    assert ParseInline(printed) == [Plain(printed)];
    if forall c <- t :: c !in TEXT_SPECIALS {
      NothingToEscape(t, TEXT_SPECIALS);
    }
  }

  lemma BackslashIsPlain()
    ensures !IsDelimiter('\\')
  {
  }

  /** A parenthesis gains a backslash. */
  lemma ParenthesisGainsBackslash()
    ensures ParseInline(RenderSpan(Span("(", {}))) == [Plain("\\(")]
  {
    hide ParseInline;
    assert Escape("(", TEXT_SPECIALS) == "\\(" by { assert "("[1..] == ""; }
    MarkupFreeText("\\(");
  }
}
