/** Inline marks, in all their spellings and whatever they contain: what stands between two marks is
    read as a text of its own, and so is what follows them. */
module InlineMarks {
  import opened Text
  import opened DocumentTypes
  import opened InlineParser
  import opened InlineText
  import opened InlineRoundTrip

  /** A match at the very front: its text is converted, and the rest is scanned afresh. */
  lemma FrontIsRead(s: string, kind: Kind, hit: Hit)
    requires OnlyHitAtFront(s, kind, hit)
    ensures hit.length <= |s|
    ensures ParseInline(s) == Convert(kind, hit, ParseInline(hit.content)) + ParseInline(s[hit.length..])
  {
    hide *;
    FrontIsFound(s, kind, hit);
    FindNextHits(s, 0, kind, hit);
    TextItemsIs(s[..0]);
    InBounds(s, 0, kind, hit);
    ParseInlineStep(s, 0, kind, hit);
  }

  lemma UnderscorePairFront(text: string, rest: string)
    requires text != "" && '_' !in text && '\n' !in text
    ensures OnlyHitAtFront("__" + text + "__" + rest, BoldKind, Hit(|text| + 4, text, ""))
  {
    var s := "__" + text + "__" + rest;
    var j := |text| + 2;
    assert forall k | 2 <= k < j :: s[k] == text[k - 2];
    PairEndIs(s, 3, '_', j);
    assert s[2..j] == text;
  }

  lemma UnderscoreFront(text: string, rest: string)
    requires text != "" && '_' !in text && '\n' !in text
    requires rest == "" || rest[0] != '_'
    ensures OnlyHitAtFront("_" + text + "_" + rest, ItalicKind, Hit(|text| + 2, text, ""))
  {
    var s := "_" + text + "_" + rest;
    var j := |text| + 1;
    assert forall k | 1 <= k < j :: s[k] == text[k - 1];
    RunEndIs(s, 1, '_', j);
    assert s[1..j] == text;
  }

  /** Two stars or two underscores make bold whatever is read between them. */
  lemma BoldIsRead(m: char, text: string, rest: string)
    requires (m == '*' || m == '_') && text != "" && m !in text && '\n' !in text
    ensures ParseInline([m, m] + text + [m, m] + rest) == Restyle(ParseInline(text), Bold) + ParseInline(rest)
  {
    hide OnlyHitAtFront, ParseInline, Restyle;
    var s := [m, m] + text + [m, m] + rest;
    if m == '*' {
      PairFront(BoldKind, '*', text, rest);
    } else {
      UnderscorePairFront(text, rest);
      assert s == "__" + text + "__" + rest;
    }
    FrontIsRead(s, BoldKind, Hit(|text| + 4, text, ""));
    assert s[|text| + 4..] == rest;
  }

  /** One star or one underscore makes italic whatever is read between them. */
  lemma ItalicIsRead(m: char, text: string, rest: string)
    requires (m == '*' || m == '_') && text != "" && m !in text && '\n' !in text
    requires rest == "" || rest[0] != m
    ensures ParseInline([m] + text + [m] + rest) == Restyle(ParseInline(text), Italic) + ParseInline(rest)
  {
    hide OnlyHitAtFront, ParseInline, Restyle;
    var s := [m] + text + [m] + rest;
    if m == '*' {
      ItalicFront(text, rest);
      assert s == "*" + text + "*" + rest;
    } else {
      UnderscoreFront(text, rest);
      assert s == "_" + text + "_" + rest;
    }
    FrontIsRead(s, ItalicKind, Hit(|text| + 2, text, ""));
    assert s[|text| + 2..] == rest;
  }

  lemma StrikeIsRead(text: string, rest: string)
    requires text != "" && '~' !in text && '\n' !in text
    ensures ParseInline("~~" + text + "~~" + rest) == Restyle(ParseInline(text), Strike) + ParseInline(rest)
  {
    hide OnlyHitAtFront, ParseInline, Restyle;
    var s := "~~" + text + "~~" + rest;
    PairFront(StrikeKind, '~', text, rest);
    FrontIsRead(s, StrikeKind, Hit(|text| + 4, text, ""));
    assert s[|text| + 4..] == rest;
  }

  /** Code is taken as it stands, marks and all. */
  lemma CodeIsVerbatim(text: string, rest: string)
    requires text != "" && '`' !in text && '\n' !in text
    ensures ParseInline("`" + text + "`" + rest) == [Styled(Span(text, {Code}))] + ParseInline(rest)
  {
    hide OnlyHitAtFront, ParseInline;
    var s := "`" + text + "`" + rest;
    CodeFront(text, rest);
    FrontIsRead(s, CodeKind, Hit(|text| + 2, text, ""));
    assert s[|text| + 2..] == rest;
  }

  /** A link has its target without the white space around it, and without angle brackets; its label is
      read as a text of its own. */
  lemma LinkIsRead(text: string, left: string, target: string, right: string, angled: bool, rest: string)
    requires ']' !in text && '\n' !in text
    requires target != "" && ')' !in target && DotOnly(target) && (!angled ==> Trimmed(target) && target[0] != '<')
    requires forall c <- left + right :: IsSpace(c) && c != '\n'
    ensures var inside := left + (if angled then "<" + target + ">" else target) + right;
            ParseInline("[" + text + "](" + inside + ")" + rest)
            == [Link(target, LabelSpans(ParseInline(text)))] + ParseInline(rest)
  {
    hide OnlyHitAtFront, ParseInline, LabelSpans, NormalizeLinkTarget, IsSpace, TrimStart, TrimEnd, Trim;
    var shown := if angled then "<" + target + ">" else target;
    var inside := left + shown + right;
    var s := "[" + text + "](" + inside + ")" + rest;
    InsideIsOneLine(left, target, right, angled);
    LinkFront(text, inside, rest);
    FrontIsRead(s, LinkKind, Hit(|text| + |inside| + 4, text, inside));
    assert s[|text| + |inside| + 4..] == rest;
    TargetIsRead(left, target, right, angled);
  }

  lemma InsideIsOneLine(left: string, target: string, right: string, angled: bool)
    requires ')' !in target && DotOnly(target)
    requires forall c <- left + right :: IsSpace(c) && c != '\n'
    ensures var inside := left + (if angled then "<" + target + ">" else target) + right;
            ')' !in inside && '\n' !in inside
  {
    assert IsLineTerminator('\n') && !IsSpace(')');
    hide IsSpace, IsLineTerminator;
    forall c | c == ')' || c == '\n'
      ensures c !in left && c !in right && c !in target
    {
      assert c in left || c in right ==> c in left + right;
    }
  }

  lemma TargetIsRead(left: string, target: string, right: string, angled: bool)
    requires target != "" && DotOnly(target) && (!angled ==> Trimmed(target) && target[0] != '<')
    requires forall c <- left + right :: IsSpace(c)
    ensures NormalizeLinkTarget(left + (if angled then "<" + target + ">" else target) + right) == target
  {
    hide TrimStart, TrimEnd, Trim;
    var shown := if angled then "<" + target + ">" else target;
    assert (forall c <- left :: IsSpace(c)) && forall c <- right :: IsSpace(c) by {
      assert forall c <- left :: c in left + right;
      assert forall c <- right :: c in left + right;
    }
    TrimOfPadded(left, shown, right);
    if angled {
      assert shown[1..|shown| - 1] == target;
    }
  }

  // ---- Images inside a text ----

  lemma NoHitInImage(kind: Kind, s: string, i: nat)
    requires |s| > 1 && i < |s| && s[0] == '!' && s[1] == '[' && forall k | 2 <= k < |s| :: !IsDelimiter(s[k])
    ensures HitAt(kind, s, i).None?
  {
    if i != 1 {
      NoHitWithoutDelimiter(kind, s, i);
    }
  }

  /** An image inside a text is no link: it stays what it is written as. */
  lemma ImageStaysText(alt: string, target: string)
    requires forall c <- alt + target :: !IsDelimiter(c)
    ensures ParseInline("![" + alt + "](" + target + ")") == [Plain("![" + alt + "](" + target + ")")]
  {
    hide HitAt, Search, ParseInline, IsDelimiter;
    var s := "![" + alt + "](" + target + ")";
    forall k | 2 <= k < |s| ensures !IsDelimiter(s[k]) {
      if k < 2 + |alt| {
        assert s[k] == alt[k - 2] && alt[k - 2] in alt + target;
      } else if 4 + |alt| <= k < |s| - 1 {
        assert s[k] == target[k - 4 - |alt|] && target[k - 4 - |alt|] in alt + target;
      } else {
        BracketsAreNoDelimiters();
      }
    }
    forall kind: Kind ensures Search(kind, s, 0).None? {
      SearchIsLeftmost(kind, s, 0);
      forall i | 0 <= i < |s| ensures HitAt(kind, s, i).None? {
        NoHitInImage(kind, s, i);
      }
    }
    NoMatchLeft(s);
  }

  lemma BracketsAreNoDelimiters()
    ensures !IsDelimiter(']') && !IsDelimiter('(') && !IsDelimiter(')')
  {
  }

  // ---- Which pattern matches, and what it does to the styles ----

  /** At no place do two patterns match, so the order in which they are tried does not matter. */
  lemma OneKindPerPlace(s: string, i: nat, a: Kind, b: Kind)
    requires i < |s| && HitAt(a, s, i).Some? && HitAt(b, s, i).Some?
    ensures a == b
  {
  }

  /** The spans of an item. */
  function SpansOf(item: Inline): seq<Span> {
    match item
    case Styled(span) => [span]
    case Link(_, spans) => spans
  }

  lemma {:induction false} RestyledSpan(spans: seq<Span>, style: Style, k: nat)
    requires k < |spans|
    ensures RestyleSpans(spans, style)[k] == Span(spans[k].text, spans[k].styles + {style})
  {
    if k > 0 {
      RestyledSpan(spans[1..], style, k - 1);
    }
  }

  /** A mark adds its style to every run it covers, in links as well, and changes nothing else. */
  lemma {:induction false} MarkAddsStyle(items: seq<Inline>, style: Style, i: nat, k: nat)
    requires i < |items| && k < |SpansOf(items[i])|
    ensures var was, now := items[i], Restyle(items, style)[i];
            && was.Link? == now.Link? && (was.Link? ==> now.href == was.href)
            && |SpansOf(now)| == |SpansOf(was)|
            && SpansOf(now)[k] == Span(SpansOf(was)[k].text, SpansOf(was)[k].styles + {style})
  {
    if i > 0 {
      MarkAddsStyle(items[1..], style, i - 1, k);
    } else if items[0].Link? {
      RestyledSpan(items[0].spans, style, k);
    }
  }

  /** A label keeps the styled runs it is made of; a link inside it becomes its text, unstyled. */
  lemma {:induction false} LabelKeepsStyles(items: seq<Inline>, i: nat)
    requires i < |items|
    ensures |LabelSpans(items)| == |items|
    ensures LabelSpans(items)[i] == if items[i].Styled? then items[i].span else Span(SpansText(items[i].spans), {})
  {
    if i > 0 {
      LabelKeepsStyles(items[1..], i - 1);
    } else {
      LabelHasAll(items);
    }
  }

  lemma {:induction false} LabelHasAll(items: seq<Inline>)
    ensures |LabelSpans(items)| == |items|
  {
    if items != [] {
      LabelHasAll(items[1..]);
    }
  }
}
