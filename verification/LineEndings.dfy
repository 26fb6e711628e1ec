/** Documents read the same whatever their line endings are. */
module LineEndings {
  import opened BlockParser

  /** The text with every LF written as `mark`. */
  function WithBreaks(s: string, mark: string): string {
    if s == "" then ""
    else (if s[0] == '\n' then mark else [s[0]]) + WithBreaks(s[1..], mark)
  }

  /** `t` is `s` with a CR in front of some of its line feeds. */
  ghost predicate IsMixed(s: string, t: string) {
    if s == "" then t == ""
    else if s[0] == '\n' then
      || (t != "" && t[0] == '\n' && IsMixed(s[1..], t[1..]))
      || (|t| > 1 && t[0] == '\r' && t[1] == '\n' && IsMixed(s[1..], t[2..]))
    else t != "" && t[0] == s[0] && IsMixed(s[1..], t[1..])
  }

  lemma {:induction false} MixedIsNormalised(s: string, t: string)
    requires '\r' !in s && IsMixed(s, t)
    ensures NormalizeLineEndings(t) == s
  {
    if s != "" {
      var n := if t[0] == '\r' then 2 else 1;
      MixedIsNormalised(s[1..], t[n..]);
      assert s == [s[0]] + s[1..];
    }
  }

  lemma {:induction false} CRLFIsMixed(s: string)
    ensures IsMixed(s, WithBreaks(s, "\r\n"))
  {
    if s != "" {
      CRLFIsMixed(s[1..]);
      var t, rest := WithBreaks(s, "\r\n"), WithBreaks(s[1..], "\r\n");
      assert t[if s[0] == '\n' then 2 else 1..] == rest;
    }
  }

  lemma {:induction false} LFIsMixed(s: string)
    ensures IsMixed(s, s)
  {
    if s != "" {
      LFIsMixed(s[1..]);
    }
  }

  lemma {:induction false} CRIsNormalised(s: string)
    requires '\r' !in s
    ensures NormalizeLineEndings(WithBreaks(s, "\r")) == s
    ensures WithBreaks(s, "\r") != "" ==> WithBreaks(s, "\r")[0] != '\n'
  {
    if s != "" {
      CRIsNormalised(s[1..]);
      assert WithBreaks(s, "\r")[1..] == WithBreaks(s[1..], "\r");
      assert s == [s[0]] + s[1..];
    }
  }

  /** Files with line endings of either kind, even mixed, read like the file with plain line feeds. */
  lemma MixedLineEndingsReadAlike(s: string, t: string)
    requires '\r' !in s && IsMixed(s, t)
    ensures ParseDocument(t) == ParseDocument(s)
  {
    hide NormalizeLineEndings, Blocks;
    MixedIsNormalised(s, t);
    LFIsMixed(s);
    MixedIsNormalised(s, s);
  }

  /** A file reads alike with CRLF pairs, with lone CRs and with line feeds. */
  lemma LineEndingsReadAlike(s: string)
    requires '\r' !in s
    ensures ParseDocument(WithBreaks(s, "\r\n")) == ParseDocument(s)
    ensures ParseDocument(WithBreaks(s, "\r")) == ParseDocument(s)
  {
    hide NormalizeLineEndings, Blocks, IsMixed;
    CRLFIsMixed(s);
    MixedLineEndingsReadAlike(s, WithBreaks(s, "\r\n"));
    CRIsNormalised(s);
    LFIsMixed(s);
    MixedIsNormalised(s, s);
  }
}
