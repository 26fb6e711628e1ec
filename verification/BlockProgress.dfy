/** How the block parser moves through the lines: always forward, and over every line once. */
module BlockProgress {
  import opened Text
  import opened DocumentTypes
  import opened InlineParser
  import opened LineRecognizers
  import opened BlockParser
  import opened FenceSafety
  import opened BlockRoundTrip
  import opened ListRoundTrip

  // ---- Line ranges ----

  datatype LineRange = LineRange(start: nat, end: nat)

  /** The line ranges of the blocks, in order; the first line has number `offset`. */
  function Ranges(lines: seq<string>, offset: nat): seq<LineRange>
    decreases |lines|
  {
    if lines == [] then []
    else if IsBlank(lines[0]) then Ranges(lines[1..], offset + 1)
    else
      var n := NextBlock(lines).used;
      [LineRange(offset, offset + n)] + Ranges(lines[n..], offset + n)
  }

  ghost predicate InRange(k: nat, range: LineRange) {
    range.start <= k < range.end
  }

  /** Ranges that follow one another inside [lo, hi], none of them empty. */
  ghost predicate Ordered(ranges: seq<LineRange>, lo: nat, hi: nat) {
    && (forall i | 0 <= i < |ranges| :: lo <= ranges[i].start < ranges[i].end <= hi)
    && (forall i, j | 0 <= i < j < |ranges| :: ranges[i].end <= ranges[j].start)
  }

  lemma OrderedCons(first: LineRange, rest: seq<LineRange>, lo: nat, hi: nat)
    requires lo <= first.start < first.end <= hi && Ordered(rest, first.end, hi)
    ensures Ordered([first] + rest, lo, hi)
  {
  }

  ghost predicate Covered(k: nat, ranges: seq<LineRange>) {
    exists range <- ranges :: InRange(k, range)
  }

  /** The non-blank lines, numbered from `offset`, all lie in some range. */
  ghost predicate AllCovered(lines: seq<string>, offset: nat, ranges: seq<LineRange>) {
    forall k | 0 <= k < |lines| && !IsBlank(lines[k]) :: Covered(offset + k, ranges)
  }

  lemma CoveredCons(first: LineRange, rest: seq<LineRange>, k: nat)
    requires InRange(k, first) || Covered(k, rest)
    ensures Covered(k, [first] + rest)
  {
    var ranges := [first] + rest;
    if InRange(k, first) {
      assert ranges[0] == first;
    } else {
      var range :| range in rest && InRange(k, range);
      assert range in ranges;
    }
  }

  lemma AllCoveredCons(lines: seq<string>, offset: nat, n: nat, rest: seq<LineRange>)
    requires n <= |lines| && AllCovered(lines[n..], offset + n, rest)
    ensures AllCovered(lines, offset, [LineRange(offset, offset + n)] + rest)
  {
    hide IsBlank, Covered;
    var first := LineRange(offset, offset + n);
    forall k | 0 <= k < |lines| && !IsBlank(lines[k]) ensures Covered(offset + k, [first] + rest) {
      if k >= n {
        assert lines[n..][k - n] == lines[k];
        assert Covered(offset + n + (k - n), rest);
      }
      CoveredCons(first, rest, offset + k);
    }
  }

  lemma AllCoveredSkip(lines: seq<string>, offset: nat, ranges: seq<LineRange>)
    requires lines != [] && IsBlank(lines[0]) && AllCovered(lines[1..], offset + 1, ranges)
    ensures AllCovered(lines, offset, ranges)
  {
    hide IsBlank, Covered;
    forall k | 0 <= k < |lines| && !IsBlank(lines[k]) ensures Covered(offset + k, ranges) {
      assert k > 0 && lines[1..][k - 1] == lines[k];
      assert Covered(offset + 1 + (k - 1), ranges);
    }
  }

  lemma RangesStep(lines: seq<string>, offset: nat)
    ensures lines == [] ==> Ranges(lines, offset) == []
    ensures lines != [] && IsBlank(lines[0]) ==> Ranges(lines, offset) == Ranges(lines[1..], offset + 1)
    ensures lines != [] && !IsBlank(lines[0]) ==>
              var n := NextBlock(lines).used;
              Ranges(lines, offset) == [LineRange(offset, offset + n)] + Ranges(lines[n..], offset + n)
  {
    hide IsBlank, NextBlock;
  }

  /** Every block takes at least one line, no two blocks share a line, and every line that is not
      blank belongs to a block: so each of them belongs to exactly one. */
  lemma {:induction false} RangesPartitionLines(lines: seq<string>, offset: nat)
    ensures Ordered(Ranges(lines, offset), offset, offset + |lines|)
    ensures AllCovered(lines, offset, Ranges(lines, offset))
    decreases |lines|
  {
    hide NextBlock, IsBlank, Ranges, Covered;
    RangesStep(lines, offset);
    if lines != [] {
      if IsBlank(lines[0]) {
        RangesPartitionLines(lines[1..], offset + 1);
        AllCoveredSkip(lines, offset, Ranges(lines, offset));
      } else {
        hide Ordered, AllCovered;
        var n := NextBlock(lines).used;
        UsedIsPositive(lines);
        var first, rest := LineRange(offset, offset + n), Ranges(lines[n..], offset + n);
        RangesPartitionLines(lines[n..], offset + n);
        OrderedCons(first, rest, offset, offset + |lines|);
        AllCoveredCons(lines, offset, n, rest);
      }
    }
  }

  lemma UsedIsPositive(lines: seq<string>)
    requires lines != [] && !IsBlank(lines[0])
    ensures 1 <= NextBlock(lines).used <= |lines|
  {
  }

  // ---- A blank line separates ----

  lemma {:induction false} CountWhileStops(p: string -> bool, lines: seq<string>, rest: seq<string>)
    requires rest == [] || !p(rest[0])
    ensures CountWhile(p, lines + rest) == CountWhile(p, lines)
  {
    if lines == [] {
      assert lines + rest == rest;
    } else {
      assert (lines + rest)[1..] == lines[1..] + rest;
      CountWhileStops(p, lines[1..], rest);
    }
  }

  lemma ContinuesNotBlank(indent: nat, line: string)
    requires IsBlank(line)
    ensures !Continues(indent)(line)
  {
  }

  lemma {:induction false} CollectStops(lines: seq<string>, rest: seq<string>)
    requires rest != [] && IsBlank(rest[0])
    ensures CollectItems(lines + rest) == CollectItems(lines)
    decreases |lines|
  {
    hide MatchListItem, IsBlank, Continues, CountWhile, Trim;
    if lines == [] {
      assert lines + rest == rest;
      CollectNone(rest);
    } else if MatchListItem(lines[0]).Some? {
      var marker := MatchListItem(lines[0]).value;
      ContinuesNotBlank(marker.indent, rest[0]);
      assert (lines + rest)[1..] == lines[1..] + rest;
      CountWhileStops(Continues(marker.indent), lines[1..], rest);
      var n := CountWhile(Continues(marker.indent), lines[1..]);
      assert (lines + rest)[1..1 + n] == lines[1..1 + n];
      assert (lines + rest)[1 + n..] == lines[1 + n..] + rest;
      CollectStops(lines[1 + n..], rest);
    }
  }

  /** The lines open a code fence that they do not close. */
  predicate OpensWithoutClosing(lines: seq<string>)
    requires lines != []
  {
    && MatchFenceStart(lines[0]).Some?
    && CountWhile(FenceBody(MatchFenceStart(lines[0]).value), lines[1..]) == |lines| - 1
  }

  /** The lines end inside a code fence. */
  predicate EndsInsideFence(lines: seq<string>)
    decreases |lines|
  {
    if lines == [] then false
    else if IsBlank(lines[0]) then EndsInsideFence(lines[1..])
    else OpensWithoutClosing(lines) || EndsInsideFence(lines[NextBlock(lines).used..])
  }

  lemma {:induction false} CountWhileFixed(p: string -> bool, lines: seq<string>, rest: seq<string>)
    requires CountWhile(p, lines) < |lines|
    ensures CountWhile(p, lines + rest) == CountWhile(p, lines)
  {
    if lines != [] && p(lines[0]) {
      assert (lines + rest)[1..] == lines[1..] + rest;
      CountWhileFixed(p, lines[1..], rest);
    }
  }

  lemma CodeStepStops(lines: seq<string>, fence: Fence, rest: seq<string>)
    requires lines != [] && CountWhile(FenceBody(fence), lines[1..]) < |lines| - 1
    ensures CodeStep(lines + rest, fence) == CodeStep(lines, fence)
  {
    hide FenceBody, CountWhile;
    assert (lines + rest)[1..] == lines[1..] + rest;
    CountWhileFixed(FenceBody(fence), lines[1..], rest);
    var n := CountWhile(FenceBody(fence), lines[1..]);
    assert (lines[1..] + rest)[..n] == lines[1..][..n];
  }

  lemma QuoteStepStops(lines: seq<string>, rest: seq<string>)
    requires rest != [] && IsBlank(rest[0])
    ensures QuoteStep(lines + rest) == QuoteStep(lines)
  {
    BlankIsNoQuote(rest[0]);
    hide IsBlockquote, CountWhile;
    CountWhileStops(QuoteLines(), lines, rest);
    var n := CountWhile(QuoteLines(), lines);
    assert (lines + rest)[..n] == lines[..n];
  }

  lemma ParagraphStepStops(lines: seq<string>, rest: seq<string>)
    requires rest != [] && IsBlank(rest[0])
    ensures ParagraphStep(lines + rest) == ParagraphStep(lines)
  {
    BlankStartsBlock(rest[0]);
    hide StartsBlock, CountWhile;
    CountWhileStops(ParagraphLines(), lines, rest);
    var n := CountWhile(ParagraphLines(), lines);
    assert (lines + rest)[..n] == lines[..n];
  }

  lemma BlankIsNoTableLine(line: string)
    requires IsBlank(line)
    ensures !TableLines()(line)
  {
  }

  lemma SameTable(a: seq<string>, b: seq<string>, n: nat)
    requires |a| > 1 && |b| > 1 && a[0] == b[0] && a[1] == b[1]
    requires CountWhile(TableLines(), a[2..]) == CountWhile(TableLines(), b[2..]) == n
    requires n + 2 <= |a| && n + 2 <= |b| && a[2..2 + n] == b[2..2 + n]
    ensures TableStep(a) == TableStep(b)
  {
    hide TableLines, CountWhile, TableCells, CellsOfAll, TableRows, Width;
  }

  lemma TableStepStops(lines: seq<string>, rest: seq<string>)
    requires |lines| > 1 && rest != [] && IsBlank(rest[0])
    ensures TableStep(lines + rest) == TableStep(lines)
  {
    hide *;
    BlankIsNoTableLine(rest[0]);
    assert (lines + rest)[2..] == lines[2..] + rest;
    CountWhileStops(TableLines(), lines[2..], rest);
    var n := CountWhile(TableLines(), lines[2..]);
    assert (lines + rest)[2..2 + n] == lines[2..2 + n];
    SameTable(lines + rest, lines, n);
  }

  lemma TableStartStops(lines: seq<string>, rest: seq<string>)
    requires lines != [] && rest != [] && IsBlank(rest[0])
    ensures IsTableStart(lines + rest) == IsTableStart(lines)
  {
    BlankIsNoAlignment(rest[0]);
    hide IsTableDataLine, IsAlignmentLine;
    if |lines| == 1 {
      assert (lines + rest)[1] == rest[0];
    }
  }

  lemma NextBlockSame(a: seq<string>, b: seq<string>)
    requires a != [] && b != [] && a[0] == b[0] && !IsBlank(a[0]) && MatchFenceStart(a[0]).None?
    requires ListStep(a) == ListStep(b) && QuoteStep(a) == QuoteStep(b) && ParagraphStep(a) == ParagraphStep(b)
    requires IsTableStart(a) == IsTableStart(b)
    requires IsTableStart(a) ==> |a| > 1 && |b| > 1 && TableStep(a) == TableStep(b)
    ensures NextBlock(a) == NextBlock(b)
  {
    hide ListStep, CodeStep, QuoteStep, ParagraphStep, TableStep, IsTableStart, MatchListItem, MatchFenceStart,
      IsHorizontalRule, MatchHeading, IsBlockquote, MatchStandaloneImage, IsBlank, Trim, FileName, ParseInline;
  }

  lemma NextBlockOfFence(lines: seq<string>, fence: Fence)
    requires lines != [] && !IsBlank(lines[0]) && MatchFenceStart(lines[0]) == Some(fence)
    ensures NextBlock(lines) == CodeStep(lines, fence)
  {
    hide CodeStep, MatchFenceStart, IsBlank;
  }

  lemma ListStepStops(lines: seq<string>, rest: seq<string>)
    requires rest != [] && IsBlank(rest[0])
    ensures ListStep(lines + rest) == ListStep(lines)
  {
    hide CollectItems, Forest;
    CollectStops(lines, rest);
  }

  lemma TableStartHasTwo(lines: seq<string>)
    requires IsTableStart(lines)
    ensures |lines| > 1
  {
  }

  lemma ClosedFence(lines: seq<string>)
    requires lines != [] && !OpensWithoutClosing(lines) && MatchFenceStart(lines[0]).Some?
    ensures CountWhile(FenceBody(MatchFenceStart(lines[0]).value), lines[1..]) < |lines| - 1
  {
  }

  /** The next block does not depend on what follows a blank line. */
  lemma NextBlockStops(lines: seq<string>, rest: seq<string>)
    requires lines != [] && !IsBlank(lines[0]) && !OpensWithoutClosing(lines)
    requires rest != [] && IsBlank(rest[0])
    ensures NextBlock(lines + rest) == NextBlock(lines)
  {
    hide *;
    var all := lines + rest;
    assert all[0] == lines[0];
    if MatchFenceStart(lines[0]).Some? {
      var fence := MatchFenceStart(lines[0]).value;
      ClosedFence(lines);
      CodeStepStops(lines, fence, rest);
      NextBlockOfFence(lines, fence);
      NextBlockOfFence(all, fence);
    } else {
      ListStepStops(lines, rest);
      QuoteStepStops(lines, rest);
      ParagraphStepStops(lines, rest);
      TableStartStops(lines, rest);
      if IsTableStart(lines) {
        TableStartHasTwo(lines);
        TableStepStops(lines, rest);
      }
      NextBlockSame(lines, all);
    }
  }

  lemma {:induction false} ClosedTextSeparates(lines: seq<string>, more: seq<string>)
    requires !EndsInsideFence(lines)
    ensures Blocks(lines + [""] + more) == Blocks(lines) + Blocks(more)
    decreases |lines|
  {
    hide *;
    var rest := [""] + more;
    assert lines + [""] + more == lines + rest;
    EmptyIsBlank();
    if lines == [] {
      NoLinesNoBlocks();
      BlankFirst(rest);
      assert lines + rest == rest && rest[1..] == more;
    } else {
      assert (lines + rest)[0] == lines[0];
      ClosedMeans(lines);
      if IsBlank(lines[0]) {
        BlankFirst(lines);
        BlankFirst(lines + rest);
        assert (lines + rest)[1..] == lines[1..] + [""] + more;
        ClosedTextSeparates(lines[1..], more);
      } else {
        var used := NextBlock(lines).used;
        UsedIsPositive(lines);
        NextBlockStops(lines, rest);
        BlockFirst(lines);
        BlockFirst(lines + rest);
        assert (lines + rest)[used..] == lines[used..] + [""] + more;
        ClosedTextSeparates(lines[used..], more);
      }
    }
  }

  lemma NoLinesNoBlocks()
    ensures Blocks([]) == []
  {
  }

  lemma ClosedMeans(lines: seq<string>)
    requires lines != [] && !EndsInsideFence(lines)
    ensures IsBlank(lines[0]) ==> !EndsInsideFence(lines[1..])
    ensures !IsBlank(lines[0]) ==> !OpensWithoutClosing(lines) && !EndsInsideFence(lines[NextBlock(lines).used..])
  {
    hide IsBlank, NextBlock, OpensWithoutClosing;
  }

  lemma {:induction false} CountWhileAll(p: string -> bool, lines: seq<string>, rest: seq<string>)
    requires CountWhile(p, lines) == |lines|
    ensures CountWhile(p, lines + rest) == |lines| + CountWhile(p, rest)
  {
    if lines == [] {
      assert lines + rest == rest;
    } else {
      assert (lines + rest)[1..] == lines[1..] + rest;
      CountWhileAll(p, lines[1..], rest);
    }
  }

  lemma FenceIsLong(line: string)
    requires MatchFenceStart(line).Some?
    ensures MatchFenceStart(line).value.length >= 3
  {
  }

  lemma HeadingClosesNothing(fence: Fence)
    requires fence.length >= 3
    ensures CountWhile(FenceBody(fence), ["", "# a"]) == 2
  {
    TrimOfTrimmed("");
    TrimOfTrimmed("# a");
    assert "# a"[0] != "# a"[1];
    assert !IsFenceEnd("", fence) && !IsFenceEnd("# a", fence);
    hide IsFenceEnd;
    assert ["", "# a"][1..] == ["# a"] && ["# a"][1..] == [];
    assert CountWhile(FenceBody(fence), ["# a"]) == 1;
  }

  /** Behind a text that ends inside a fence, a blank line and a heading add no block. */
  lemma {:induction false} OpenTextSwallows(lines: seq<string>)
    requires EndsInsideFence(lines)
    ensures |Blocks(lines + ["", "# a"])| == |Blocks(lines)|
    decreases |lines|
  {
    hide *;
    var tail := ["", "# a"];
    EndsInsideMeans(lines);
    EmptyIsBlank();
    assert (lines + tail)[0] == lines[0];
    if IsBlank(lines[0]) {
      assert (lines + tail)[1..] == lines[1..] + tail;
      OpenTextSwallows(lines[1..]);
      BlankFirst(lines);
      BlankFirst(lines + tail);
    } else if OpensWithoutClosing(lines) {
      OpensMeans(lines);
      var fence := MatchFenceStart(lines[0]).value;
      FenceIsLong(lines[0]);
      HeadingClosesNothing(fence);
      assert (lines + tail)[1..] == lines[1..] + tail;
      CountWhileAll(FenceBody(fence), lines[1..], tail);
      NextBlockOfFence(lines, fence);
      NextBlockOfFence(lines + tail, fence);
      OneStepOneBlock(lines, fence);
      OneStepOneBlock(lines + tail, fence);
    } else {
      var used := NextBlock(lines).used;
      UsedIsPositive(lines);
      NextBlockStops(lines, tail);
      assert (lines + tail)[used..] == lines[used..] + tail;
      OpenTextSwallows(lines[used..]);
      BlockFirst(lines);
      BlockFirst(lines + tail);
    }
  }

  lemma EndsInsideMeans(lines: seq<string>)
    requires EndsInsideFence(lines)
    ensures lines != []
    ensures IsBlank(lines[0]) ==> EndsInsideFence(lines[1..])
    ensures !IsBlank(lines[0]) && !OpensWithoutClosing(lines) ==> EndsInsideFence(lines[NextBlock(lines).used..])
  {
  }

  lemma OpensMeans(lines: seq<string>)
    requires lines != [] && OpensWithoutClosing(lines)
    ensures MatchFenceStart(lines[0]).Some?
    ensures CountWhile(FenceBody(MatchFenceStart(lines[0]).value), lines[1..]) == |lines| - 1
  {
  }

  lemma BlankFirst(lines: seq<string>)
    requires lines != [] && IsBlank(lines[0])
    ensures Blocks(lines) == Blocks(lines[1..])
  {
    hide IsBlank;
  }

  lemma BlockFirst(lines: seq<string>)
    requires lines != [] && !IsBlank(lines[0])
    ensures Blocks(lines) == NextBlock(lines).blocks + Blocks(lines[NextBlock(lines).used..])
  {
    hide IsBlank, NextBlock;
  }

  /** A blank line separates a text from whatever follows it if and only if the text does not end
      inside a code fence, which would swallow what follows. */
  lemma BlankLineSeparatesIff(lines: seq<string>)
    ensures (forall more: seq<string> :: Blocks(lines + [""] + more) == Blocks(lines) + Blocks(more))
       <==> !EndsInsideFence(lines)
  {
    hide Blocks, EndsInsideFence;
    if EndsInsideFence(lines) {
      OpenTextSwallows(lines);
      HeadingHasBlock();
      assert lines + [""] + ["# a"] == lines + ["", "# a"];
    } else {
      forall more: seq<string> ensures Blocks(lines + [""] + more) == Blocks(lines) + Blocks(more) {
        ClosedTextSeparates(lines, more);
      }
    }
  }

  lemma EmptyIsBlank()
    ensures IsBlank("")
  {
  }

  /** The exception is real: an open fence takes a following heading for code. */
  lemma OpenFenceSwallows()
    ensures EndsInsideFence(["```"])
    ensures Blocks(["```"] + [""] + ["# a"]) != Blocks(["```"]) + Blocks(["# a"])
  {
    hide *;
    var fence := Fence('`', 3, "");
    FenceOfThree();
    HeadingClosesNothing(fence);
    NothingFollows(fence);
    assert ["```"] + [""] + ["# a"] == ["```", "", "# a"];
    assert ["```", "", "# a"][1..] == ["", "# a"] && ["```"][1..] == [];
    CodeNext(["```", "", "# a"], fence);
    CodeNext(["```"], fence);
    OneStepOneBlock(["```", "", "# a"], fence);
    OneStepOneBlock(["```"], fence);
    HeadingHasBlock();
    OpenFenceEndsInside(fence);
  }

  lemma NothingFollows(fence: Fence)
    ensures CountWhile(FenceBody(fence), []) == 0
  {
  }

  lemma OpenFenceEndsInside(fence: Fence)
    requires MatchFenceStart("```") == Some(fence) && !IsBlank("```") && CountWhile(FenceBody(fence), []) == 0
    ensures EndsInsideFence(["```"])
  {
    hide MatchFenceStart, IsBlank, CountWhile, FenceBody;
    assert ["```"][1..] == [];
  }

  /** A fence that nothing closes is a block of its own. */
  lemma OneStepOneBlock(lines: seq<string>, fence: Fence)
    requires lines != [] && !IsBlank(lines[0]) && NextBlock(lines) == CodeStep(lines, fence)
    requires CountWhile(FenceBody(fence), lines[1..]) == |lines| - 1
    ensures |Blocks(lines)| == 1
  {
    hide NextBlock, ParseInline, CountWhile, IsBlank;
    assert NextBlock(lines).used == |lines|;
    assert lines[|lines|..] == [] && Blocks([]) == [];
  }

  lemma FenceOfThree()
    ensures MatchFenceStart("```") == Some(Fence('`', 3, "")) && !IsBlank("```")
  {
    TrimOfTrimmed("```");
    TrimOfTrimmed("");
    assert RunLength("```", '`') == 3 by {
      assert "```"[..3] == "```";
      RunLengthIs("```", '`', 3);
    }
    assert "```"[3..] == "";
  }

  lemma HeadingHasBlock()
    ensures |Blocks(["# a"])| > 0
  {
    TrimOfTrimmed("# a");
    HashLine("# a");
    assert Repeat('#', 1) + " " + "a" == "# a";
    HeadingMatches(1, "a");
    hide MatchHeading, MatchFenceStart, IsHorizontalRule, ParseInline;
    assert |NextBlock(["# a"]).blocks| == 1;
    hide NextBlock;
  }
}
