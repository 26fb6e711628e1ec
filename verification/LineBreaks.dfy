/** Splitting a text at LF or CRLF, as split(/\r?\n/) does. */
module LineBreaks {

  predicate IsLineEnd(c: char) {
    c == '\r' || c == '\n'
  }

  /** A CRLF pair or a single LF stands in front. */
  predicate BreakAt(s: string) {
    s != "" && (s[0] == '\n' || (s[0] == '\r' && |s| > 1 && s[1] == '\n'))
  }

  function AfterBreak(s: string): string
    requires BreakAt(s)
  {
    if s[0] == '\n' then s[1..] else s[2..]
  }

  function Lines(s: string): (lines: seq<string>)
    ensures lines != []
    decreases |s|
  {
    if s == "" then [""]
    else if BreakAt(s) then [""] + Lines(AfterBreak(s))
    else
      var rest := Lines(s[1..]);
      [[s[0]] + rest[0]] + rest[1..]
  }

  predicate SingleLine(s: string) {
    forall c <- s :: !IsLineEnd(c)
  }

  predicate NoLoneCR(s: string) {
    forall i | 0 <= i < |s| && s[i] == '\r' :: i + 1 < |s| && s[i + 1] == '\n'
  }

  lemma {:induction false} LinesHaveNoBreaks(s: string)
    requires NoLoneCR(s)
    ensures forall l <- Lines(s) :: SingleLine(l)
    decreases |s|
  {
    if s == "" {
    } else if BreakAt(s) {
      var rest := AfterBreak(s);
      assert forall i | 0 <= i < |rest| :: rest[i] == s[|s| - |rest| + i];
      LinesHaveNoBreaks(rest);
    } else {
      assert forall i | 0 <= i < |s| - 1 :: s[1..][i] == s[1 + i];
      LinesHaveNoBreaks(s[1..]);
      var rest := Lines(s[1..]);
      assert rest[0] in rest && !IsLineEnd(s[0]);
      assert SingleLine([s[0]] + rest[0]);
    }
  }
}
