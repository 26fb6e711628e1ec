/** Inline items printed as Markdown. */
module InlineRenderer {
  import opened Text
  import opened DocumentTypes

  /** A backslash in front of every special character. */
  function Escape(s: string, special: set<char>): string {
    if s == "" then ""
    else (if s[0] in special then "\\" else "") + [s[0]] + Escape(s[1..], special)
  }

  const TEXT_SPECIALS: set<char> := {'\\', '[', ']', '(', ')'}
  const LABEL_SPECIALS: set<char> := {'\\', '[', ']'}
  const TARGET_SPECIALS: set<char> := {'\\', ')'}

  lemma {:induction false} NothingToEscape(s: string, special: set<char>)
    requires forall c <- s :: c !in special
    ensures Escape(s, special) == s
  {
    if s != "" {
      NothingToEscape(s[1..], special);
      assert [s[0]] + s[1..] == s;
    }
  }

  /** Length of the run of backticks a text starts with. */
  function BackticksAtStart(s: string): (n: nat)
    ensures n <= |s|
  {
    if s != "" && s[0] == '`' then 1 + BackticksAtStart(s[1..]) else 0
  }

  function LongestBacktickRun(s: string): nat {
    if s == "" then 0 else Max(BackticksAtStart(s), LongestBacktickRun(s[1..]))
  }

  lemma {:induction false} BackticksAtStartBound(s: string, n: nat)
    requires n <= |s| && All(s[..n], '`')
    ensures n <= BackticksAtStart(s)
  {
    if n > 0 {
      assert s[..n][0] == s[0] && s[1..][..n - 1] == s[..n][1..];
      BackticksAtStartBound(s[1..], n - 1);
    }
  }

  /** No stretch of backticks in a text is longer than its longest run. */
  lemma {:induction false} LongestRunBoundsStretches(s: string, i: nat, j: nat)
    requires i <= j <= |s| && All(s[i..j], '`')
    ensures j - i <= LongestBacktickRun(s)
  {
    if i < j {
      if i == 0 {
        BackticksAtStartBound(s, j);
      } else {
        assert s[1..][i - 1..j - 1] == s[i..j];
        LongestRunBoundsStretches(s[1..], i - 1, j - 1);
      }
    }
  }

  function Wrap(marker: string, text: string): string {
    marker + text + marker
  }

  function RenderSpan(span: Span): string {
    if Code in span.styles then
      Wrap(Repeat('`', Max(1, LongestBacktickRun(span.text) + 1)), span.text)
    else
      var text := Escape(span.text, TEXT_SPECIALS);
      var italic := if Italic in span.styles then Wrap("*", text) else text;
      var bold := if Bold in span.styles then Wrap("**", italic) else italic;
      if Strike in span.styles then Wrap("~~", bold) else bold
  }

  function RenderLabel(spans: seq<Span>): string {
    if spans == [] then "" else Escape(spans[0].text, LABEL_SPECIALS) + RenderLabel(spans[1..])
  }

  function RenderItem(item: Inline): string {
    match item
    case Styled(span) => RenderSpan(span)
    case Link(href, spans) => "[" + RenderLabel(spans) + "](" + Escape(href, TARGET_SPECIALS) + ")"
  }

  function RenderInline(items: seq<Inline>): string {
    if items == [] then "" else RenderItem(items[0]) + RenderInline(items[1..])
  }
}
