/** A printed code block is read back as exactly its text and its language. */
module FenceSafety {
  import opened Text
  import opened DocumentTypes
  import opened InlineParser
  import opened InlineRenderer
  import opened LineRecognizers
  import opened BlockParser
  import opened BlockRenderer

  /** A language tag that fits on the opening fence. */
  predicate LanguageComesBack(language: string) {
    Trimmed(language) && '`' !in language && '\n' !in language && '\r' !in language
  }

  lemma {:induction false} PartIsSlice(s: string, sep: char, k: nat) returns (i: nat)
    requires k < |Split(s, sep)|
    ensures i + |Split(s, sep)[k]| <= |s|
    ensures s[i..i + |Split(s, sep)[k]|] == Split(s, sep)[k]
    ensures k == 0 ==> i == 0
  {
    if s == "" {
      i := 0;
    } else {
      var rest := Split(s[1..], sep);
      if s[0] == sep {
        if k == 0 {
          i := 0;
        } else {
          var j := PartIsSlice(s[1..], sep, k - 1);
          SliceOfSuffix(s, 1, j, j + |rest[k - 1]|);
          i := j + 1;
        }
      } else {
        var j := PartIsSlice(s[1..], sep, k);
        SliceOfSuffix(s, 1, j, j + |rest[k]|);
        if k > 0 {
          i := j + 1;
        } else {
          i := 0;
          assert s[..1 + |rest[0]|] == [s[0]] + s[1..1 + |rest[0]|];
        }
      }
    }
  }

  /** No line of a code text can close the fence that was made for it. */
  lemma NoLineClosesFence(code: string, k: nat, language: string)
    requires k < |Split(code, '\n')|
    ensures !IsFenceEnd(Split(code, '\n')[k], Fence('`', |CodeFence(code)|, language))
  {
    hide Split, TrimStart, LongestBacktickRun;
    var line := Split(code, '\n')[k];
    var t := Trim(line);
    if |t| >= |CodeFence(code)| && All(t, '`') {
      var i := PartIsSlice(code, '\n', k);
      var j := TrimIsSlice(line);
      SliceOfSlice(code, i, i + |line|, j, j + |t|);
      assert code[i + j..i + j + |t|] == t;
      LongestRunBoundsStretches(code, i + j, i + j + |t|);
      assert false;
    }
  }

  lemma {:induction false} RunLengthIs(s: string, c: char, n: nat)
    requires n <= |s| && All(s[..n], c) && (n == |s| || s[n] != c)
    ensures RunLength(s, c) == n
  {
    if n > 0 {
      assert s[..n][0] == s[0] && s[1..][..n - 1] == s[..n][1..];
      RunLengthIs(s[1..], c, n - 1);
    }
  }

  /** The opening line is recognised, with the language it carries. */
  lemma OpeningFence(code: string, language: string)
    requires LanguageComesBack(language)
    ensures MatchFenceStart(CodeFence(code) + language) == Some(Fence('`', |CodeFence(code)|, language))
  {
    hide LongestBacktickRun, Trim;
    var fence := CodeFence(code);
    var line := fence + language;
    assert line[0] == '`';
    assert TrimStart(line) == line;
    assert line[..|fence|] == fence && line[|fence|..] == language;
    RunLengthIs(line, '`', |fence|);
    TrimOfTrimmed(language);
  }

  lemma ClosingFence(code: string, language: string)
    ensures IsFenceEnd(CodeFence(code), Fence('`', |CodeFence(code)|, language))
  {
    hide LongestBacktickRun;
    TrimOfTrimmed(CodeFence(code));
  }

  lemma {:induction false} CountWhileIs(p: string -> bool, front: seq<string>, rest: seq<string>)
    requires forall i | 0 <= i < |front| :: p(front[i])
    requires rest == [] || !p(rest[0])
    ensures CountWhile(p, front + rest) == |front|
  {
    if front == [] {
      assert front + rest == rest;
    } else {
      assert (front + rest)[1..] == front[1..] + rest;
      CountWhileIs(p, front[1..], rest);
    }
  }

  /** The lines of a printed code block. */
  function CodeBlockLines(code: string, language: string): seq<string> {
    [CodeFence(code) + language] + Split(code, '\n') + [CodeFence(code)]
  }

  /** For every code text and every tag without backticks: the parser's code step, started on the
      printed lines and whatever comes after them, collects exactly the text and the tag, and
      stops right after the closing fence. */
  lemma FenceRoundTrip(code: string, language: string, rest: seq<string>)
    requires LanguageComesBack(language)
    ensures var lines := CodeBlockLines(code, language) + rest;
            var fence := Fence('`', |CodeFence(code)|, language);
            && MatchFenceStart(lines[0]) == Some(fence)
            && CodeText(lines[1..], fence) == code
            && CodeStep(lines, fence)
               == Step([Leaf(CodeBlock(language, ParseInline(code)))], |CodeBlockLines(code, language)|)
  {
    hide *;
    var body := Split(code, '\n');
    var closing := [CodeFence(code)] + rest;
    var lines := CodeBlockLines(code, language) + rest;
    var fence := Fence('`', |CodeFence(code)|, language);
    CodeBlockLinesAre(code, language);
    OpeningFence(code, language);
    ClosingFence(code, language);
    assert lines[1..] == body + closing;
    FenceBodyIs(fence);
    forall i | 0 <= i < |body| ensures FenceBody(fence)(body[i]) {
      NoLineClosesFence(code, i, language);
    }
    CountWhileIs(FenceBody(fence), body, closing);
    assert lines[1..][..|body|] == body;
    JoinOfSplit(code, '\n');
    CodeTextIs(lines[1..], fence, code);
    CodeStepIs(lines, fence, code);
  }

  lemma CodeBlockLinesAre(code: string, language: string)
    ensures CodeBlockLines(code, language) == [CodeFence(code) + language] + Split(code, '\n') + [CodeFence(code)]
  {
  }

  lemma FenceBodyIs(fence: Fence)
    ensures forall line :: FenceBody(fence)(line) == !IsFenceEnd(line, fence)
  {
  }

  lemma CodeTextIs(lines: seq<string>, fence: Fence, code: string)
    requires Join(lines[..CountWhile(FenceBody(fence), lines)], ['\n']) == code
    ensures CodeText(lines, fence) == code
  {
  }

  lemma CodeStepIs(lines: seq<string>, fence: Fence, code: string)
    requires lines != [] && CodeText(lines[1..], fence) == code
    ensures var n := CountWhile(FenceBody(fence), lines[1..]);
            CodeStep(lines, fence)
            == Step([Leaf(CodeBlock(fence.language, ParseInline(code)))], if n < |lines| - 1 then n + 2 else n + 1)
  {
  }
}
