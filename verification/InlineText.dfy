/** What the inline scanner does to the text it scans: it only ever leaves characters out. */
module InlineText {
  import opened Text
  import opened DocumentTypes
  import opened InlineParser

  // ---- Where matches are found ----

  lemma {:induction false} SearchIsLeftmost(kind: Kind, s: string, i: nat)
    requires i <= |s|
    ensures
      match Search(kind, s, i)
      case Some(Found(index, k, hit)) =>
        && i <= index < |s| && k == kind && HitAt(kind, s, index) == Some(hit)
        && forall j | i <= j < index :: HitAt(kind, s, j).None?
      case None => forall j | i <= j < |s| :: HitAt(kind, s, j).None?
    decreases |s| - i
  {
    hide HitAt;
    if i < |s| && HitAt(kind, s, i).None? {
      SearchIsLeftmost(kind, s, i + 1);
    }
  }

  /** What FindNext reports is a match of that pattern at that place. */
  lemma FindNextHits(s: string, index: nat, kind: Kind, hit: Hit)
    requires FindNext(s) == Some(Found(index, kind, hit))
    ensures index < |s| && HitAt(kind, s, index) == Some(hit)
  {
    hide HitAt, Search;
    SearchIsLeftmost(LinkKind, s, 0);
    SearchIsLeftmost(CodeKind, s, 0);
    SearchIsLeftmost(StrikeKind, s, 0);
    SearchIsLeftmost(BoldKind, s, 0);
    SearchIsLeftmost(ItalicKind, s, 0);
  }

  /** The captured text is a slice of the source, inside what the match covers. */
  lemma CaptureIsSlice(kind: Kind, s: string, i: nat, hit: Hit) returns (lo: nat, hi: nat)
    requires i < |s| && HitAt(kind, s, i) == Some(hit)
    ensures i <= lo <= hi <= i + hit.length <= |s| && hit.content == s[lo..hi]
  {
    hide PairEnd, RunEnd;
    lo := if kind.BoldKind? || kind.StrikeKind? then i + 2 else i + 1;
    hi := lo + |hit.content|;
  }

  // ---- Styling keeps the text ----

  lemma {:induction false} RestyleSpansText(spans: seq<Span>, style: Style)
    ensures SpansText(RestyleSpans(spans, style)) == SpansText(spans)
  {
    if spans != [] {
      RestyleSpansText(spans[1..], style);
    }
  }

  /** Bold, italic and strike-through never change the text they are put on. */
  lemma {:induction false} RestyleKeepsText(items: seq<Inline>, style: Style)
    ensures PlainText(Restyle(items, style)) == PlainText(items)
  {
    if items != [] {
      if items[0].Link? {
        RestyleSpansText(items[0].spans, style);
      }
      RestyleKeepsText(items[1..], style);
    }
  }

  lemma {:induction false} LabelKeepsText(items: seq<Inline>)
    ensures SpansText(LabelSpans(items)) == PlainText(items)
  {
    if items != [] {
      LabelKeepsText(items[1..]);
    }
  }

  lemma PlainTextOfOne(item: Inline)
    ensures PlainText([item]) == ItemText(item)
  {
    assert PlainText([item]) == ItemText(item) + PlainText([item][1..]);
  }

  lemma ConvertText(kind: Kind, hit: Hit, inner: seq<Inline>)
    ensures kind == CodeKind ==> PlainText(Convert(kind, hit, inner)) == hit.content
    ensures kind != CodeKind ==> PlainText(Convert(kind, hit, inner)) == PlainText(inner)
  {
    match kind
    case CodeKind => PlainTextOfOne(Styled(Span(hit.content, {Code})));
    case LinkKind =>
      LabelKeepsText(inner);
      PlainTextOfOne(Link(NormalizeLinkTarget(hit.href), LabelSpans(inner)));
    case _ => RestyleKeepsText(inner, StyleOf(kind));
  }

  /** For every text, the scanned items spell out a subsequence of it: nothing is added or moved. */
  lemma {:induction false} ScanOnlyRemoves(s: string)
    ensures IsSubsequence(PlainText(ParseInline(s)), s)
    decreases |s|
  {
    hide *;
    if s == "" {
      ParseInlineEmpty();
      EmptyText(s);
    } else {
      match FindNext(s)
      case None =>
        NoMatchLeft(s);
        PlainTextOfOne(Plain(s));
        PlainIs(s);
        SubsequenceRefl(s);
      case Some(Found(index, kind, hit)) =>
        ParseInlineStep(s, index, kind, hit);
        FindNextHits(s, index, kind, hit);
        var lo, hi := CaptureIsSlice(kind, s, index, hit);
        InBounds(s, index, kind, hit);
        var covered, rest := s[index..index + hit.length], s[index + hit.length..];
        ScanOnlyRemoves(hit.content);
        ScanOnlyRemoves(rest);
        ConvertText(kind, hit, ParseInline(hit.content));
        SubsequenceRefl(hit.content);
        var middle := Convert(kind, hit, ParseInline(hit.content));
        SliceOfSlice(s, index, index + hit.length, lo - index, hi - index);
        assert hit.content == covered[lo - index..hi - index];
        SubsequenceOfSlice(PlainText(middle), covered, lo - index, hi - index);
        HeadText(s[..index]);
        SubsequenceRefl(s[..index]);
        PlainTextConcat(TextItems(s[..index]) + middle, ParseInline(rest));
        PlainTextConcat(TextItems(s[..index]), middle);
        SubsequenceConcat(s[..index], s[..index], PlainText(middle), covered);
        SubsequenceConcat(s[..index] + PlainText(middle), s[..index] + covered, PlainText(ParseInline(rest)), rest);
        assert s[..index] + covered + rest == s;
    }
  }

  lemma EmptyText(s: string)
    ensures IsSubsequence(PlainText([]), s)
  {
  }

  lemma PlainIs(s: string)
    ensures ItemText(Plain(s)) == s
  {
  }

  lemma HeadText(s: string)
    ensures PlainText(TextItems(s)) == s
  {
    if s != "" {
      PlainTextOfOne(Plain(s));
    }
  }

  // ---- Text without markup ----

  /** The characters that can open a match. */
  predicate IsDelimiter(c: char) {
    c == '[' || c == '`' || c == '~' || c == '*' || c == '_'
  }

  lemma NoHitWithoutDelimiter(kind: Kind, s: string, i: nat)
    requires i < |s| && !IsDelimiter(s[i])
    ensures HitAt(kind, s, i).None?
  {
  }

  lemma NoSearchWithoutDelimiter(kind: Kind, s: string)
    requires forall c <- s :: !IsDelimiter(c)
    ensures Search(kind, s, 0).None?
  {
    hide HitAt, Search;
    SearchIsLeftmost(kind, s, 0);
    forall j | 0 <= j < |s| ensures HitAt(kind, s, j).None? {
      assert s[j] in s;
      NoHitWithoutDelimiter(kind, s, j);
    }
  }

  /** A text without any delimiter comes out as one unstyled run equal to it. */
  lemma MarkupFreeText(s: string)
    requires forall c <- s :: !IsDelimiter(c)
    ensures ParseInline(s) == TextItems(s)
  {
    if s != "" {
      hide HitAt, Search;
      forall kind: Kind ensures Search(kind, s, 0).None? {
        NoSearchWithoutDelimiter(kind, s);
      }
    }
  }
}
