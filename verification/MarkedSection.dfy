/** The section between two markers that the setup command keeps up to date in a text file. */
module MarkedSection {
  import opened Text

  const SECTION_START := "<!-- openviking:start -->"
  const SECTION_END := "<!-- openviking:end -->"

  predicate At(s: string, pattern: string, i: int) {
    0 <= i && i + |pattern| <= |s| && s[i..i + |pattern|] == pattern
  }

  function FindFrom(s: string, pattern: string, i: nat): (r: int)
    ensures r == -1 || (r >= i && At(s, pattern, r))
    ensures forall j | i <= j && (r < 0 || j < r) :: !At(s, pattern, j)
    decreases |s| - i
  {
    if i + |pattern| > |s| then -1
    else if At(s, pattern, i) then i
    else FindFrom(s, pattern, i + 1)
  }

  /** The place of the first occurrence, or -1. */
  function IndexOf(s: string, pattern: string): (r: int)
    ensures r == -1 || At(s, pattern, r)
    ensures forall j | 0 <= j && (r < 0 || j < r) :: !At(s, pattern, j)
  {
    FindFrom(s, pattern, 0)
  }

  datatype FileMutation = Created | Updated | Appended

  predicate HasBlock(text: string) {
    IndexOf(text, SECTION_START) >= 0 && IndexOf(text, SECTION_END) > IndexOf(text, SECTION_START)
  }

  function Upserted(current: Option<string>, content: string): string {
    match current
    case None => Trim(content) + "\n"
    case Some(text) =>
      if HasBlock(text) then
        var before := TrimEnd(text[..IndexOf(text, SECTION_START)]);
        var after := TrimStart(text[IndexOf(text, SECTION_END) + |SECTION_END|..]);
        Trim(Join(NonEmpty([before, Trim(content), after]), "\n\n")) + "\n"
      else
        TrimEnd(text) + (if |Trim(text)| > 0 then "\n\n" else "") + Trim(content) + "\n"
  }

  class TextFile {
    var content: Option<string>

    constructor (content: Option<string>)
      ensures this.content == content
    {
      this.content := content;
    }
  }

  method UpsertMarkedSection(file: TextFile, content: string) returns (mutation: FileMutation)
    modifies file
    ensures file.content == Some(Upserted(old(file.content), content))
    ensures mutation == if old(file.content).None? then Created
                        else if HasBlock(old(file.content).value) then Updated else Appended
  {
    hide Join, NonEmpty, Trim, TrimEnd, TrimStart, IndexOf;
    if file.content.None? {
      file.content := Some(Trim(content) + "\n");
      return Created;
    }
    var current := file.content.value;
    var startIndex, endIndex := IndexOf(current, SECTION_START), IndexOf(current, SECTION_END);
    if startIndex >= 0 && endIndex > startIndex {
      var before := TrimEnd(current[..startIndex]);
      var after := TrimStart(current[endIndex + |SECTION_END|..]);
      var next := Join(NonEmpty([before, Trim(content), after]), "\n\n");
      file.content := Some(Trim(next) + "\n");
      return Updated;
    }
    var separator := if |Trim(current)| > 0 then "\n\n" else "";
    file.content := Some(TrimEnd(current) + separator + Trim(content) + "\n");
    mutation := Appended;
  }

  // ---- What a written file looks like ----

  /** A section as the setup command renders it: once trimmed it starts with the start marker, and
      its first end marker is its end. */
  predicate IsBlock(content: string) {
    var c := Trim(content);
    At(c, SECTION_START, 0) && IndexOf(c, SECTION_END) == |c| - |SECTION_END| && |c| > |SECTION_END|
  }

  predicate NoMarkers(s: string) {
    IndexOf(s, SECTION_START) < 0 && IndexOf(s, SECTION_END) < 0
  }

  function Lead(before: string): string { if before == "" then "" else before + "\n\n" }

  function Tail(after: string): string { if after == "" then "" else "\n\n" + after }

  /** A section between what stands before and behind it. */
  function Framed(before: string, block: string, after: string): string {
    Lead(before) + block + Tail(after) + "\n"
  }

  lemma AtShift(s: string, t: string, pattern: string, i: int)
    requires At(t, pattern, i)
    ensures At(s + t, pattern, |s| + i)
  {
    assert (s + t)[|s| + i..|s| + i + |pattern|] == t[i..i + |pattern|];
  }

  /** An occurrence of a pattern without line breaks on one side of a line break. */
  lemma AtSplits(s: string, t: string, pattern: string, i: int)
    requires At(s + "\n\n" + t, pattern, i) && '\n' !in pattern && pattern != ""
    ensures At(s, pattern, i) || (i >= |s| + 2 && At(t, pattern, i - |s| - 2))
  {
    var all := s + "\n\n" + t;
    var n := |pattern|;
    forall k | i <= k < i + n ensures all[k] != '\n' {
      assert all[i..i + n][k - i] == all[k];
    }
    assert all[|s|] == '\n' && all[|s| + 1] == '\n';
    if i + n <= |s| {
      assert all[i..i + n] == s[i..i + n];
    } else {
      assert all[i..i + n] == t[i - |s| - 2..i - |s| - 2 + n];
    }
  }

  lemma MarkersHaveNoBreaks()
    ensures '\n' !in SECTION_START && '\n' !in SECTION_END
  {
  }

  lemma IndexOfIs(s: string, pattern: string, i: nat)
    requires At(s, pattern, i)
    requires forall j | 0 <= j < i :: !At(s, pattern, j)
    ensures IndexOf(s, pattern) == i
  {
  }

  lemma AtPrefix(s: string, t: string, pattern: string, i: int)
    requires i + |pattern| <= |s|
    ensures At(s + t, pattern, i) <==> At(s, pattern, i)
  {
    if 0 <= i {
      assert (s + t)[i..i + |pattern|] == s[i..i + |pattern|];
    }
  }

  /** Behind a text without the pattern, a pattern without line breaks is found where the rest has
      it first. */
  lemma IndexBehind(head: string, t: string, pattern: string)
    requires pattern != "" && '\n' !in pattern && IndexOf(head, pattern) < 0 && IndexOf(t, pattern) >= 0
    ensures IndexOf(head + "\n\n" + t, pattern) == |head| + 2 + IndexOf(t, pattern)
  {
    var i := |head| + 2 + IndexOf(t, pattern);
    AtShift(head + "\n\n", t, pattern, IndexOf(t, pattern));
    forall j | 0 <= j < i ensures !At(head + "\n\n" + t, pattern, j) {
      if At(head + "\n\n" + t, pattern, j) {
        AtSplits(head, t, pattern, j);
      }
    }
    IndexOfIs(head + "\n\n" + t, pattern, i);
  }

  lemma IndexInFront(t: string, rest: string, pattern: string)
    requires pattern != "" && IndexOf(t, pattern) >= 0
    ensures IndexOf(t + rest, pattern) == IndexOf(t, pattern)
  {
    var i := IndexOf(t, pattern);
    forall j | 0 <= j <= i ensures At(t + rest, pattern, j) <==> At(t, pattern, j) {
      AtPrefix(t, rest, pattern, j);
    }
    IndexOfIs(t + rest, pattern, i);
  }

  /** In a text with a section behind a part without markers, that section is what is found. */
  lemma BlockIsFound(before: string, content: string, rest: string)
    requires IsBlock(content) && NoMarkers(before)
    ensures var lead := Lead(before);
            var text := lead + Trim(content) + rest;
            && HasBlock(text) && IndexOf(text, SECTION_START) == |lead|
            && IndexOf(text, SECTION_END) + |SECTION_END| == |lead| + |Trim(content)|
  {
    hide IndexOf, Trim;
    var c := Trim(content);
    MarkersHaveNoBreaks();
    IndexOfIs(c, SECTION_START, 0);
    IndexInFront(c, rest, SECTION_START);
    IndexInFront(c, rest, SECTION_END);
    if before == "" {
      assert "" + c + rest == c + rest;
    } else {
      IndexBehind(before, c + rest, SECTION_START);
      IndexBehind(before, c + rest, SECTION_END);
      assert before + "\n\n" + c + rest == before + "\n\n" + (c + rest);
    }
  }

  lemma NonEmptyPush(part: string, parts: seq<string>)
    ensures NonEmpty([part] + parts) == (if part == "" then [] else [part]) + NonEmpty(parts)
  {
    assert ([part] + parts)[1..] == parts;
  }

  lemma JoinPush(part: string, parts: seq<string>)
    requires parts != []
    ensures Join([part] + parts, "\n\n") == part + "\n\n" + Join(parts, "\n\n")
  {
    assert ([part] + parts)[1..] == parts;
  }

  lemma JoinOfThree(before: string, c: string, after: string)
    requires c != ""
    ensures Join(NonEmpty([before, c, after]), "\n\n") + "\n" == Framed(before, c, after)
  {
    hide NonEmpty, Join;
    var last := if after == "" then [] else [after];
    NonEmptyPush(after, []);
    NonEmptyPush(c, [after]);
    NonEmptyPush(before, [c, after]);
    assert NonEmpty([]) == [] && Join([c], "\n\n") == c && (after != "" ==> Join(last, "\n\n") == after) by {
      JoinOfOne(c);
      JoinOfOne(after);
    }
    assert [after] + [] == [after] && [c] + [after] == [c, after] && [before] + [c, after] == [before, c, after];
    assert last + [] == last;
    var rest := [c] + last;
    assert NonEmpty([c, after]) == rest && Join(rest, "\n\n") == c + Tail(after) by {
      if after == "" {
        assert rest == [c] && c + Tail(after) == c;
      } else {
        JoinPush(c, last);
      }
    }
    if before == "" {
      assert [] + rest == rest && Lead(before) + c == c;
    } else {
      JoinPush(before, rest);
      assert before + "\n\n" + (c + Tail(after)) == Lead(before) + c + Tail(after);
    }
  }

  lemma JoinOfOne(part: string)
    ensures Join([part], "\n\n") == part && NonEmpty([]) == []
  {
  }

  // ---- Trimming ----

  lemma TrimOfPart(left: string, t: string, right: string)
    requires Trimmed(t) && (forall c <- left :: IsSpace(c)) && (forall c <- right :: IsSpace(c))
    ensures Trim(left + t) == t && Trim(t + right) == t && Trim(t) == t
  {
    hide *;
    TrimOfTrimmed(t);
    TrimOfPadded(left, t, "");
    assert left + t + "" == left + t;
    TrimOfPadded("", t, right);
    assert "" + t + right == t + right;
  }

  lemma TrimIsIdempotent(s: string)
    ensures Trim(Trim(s)) == Trim(s) && Trim(TrimEnd(s)) == Trim(s) && Trim(TrimStart(s)) == Trim(s)
  {
    hide *;
    var left, right := Padding(s);
    TrimIsTrimmed(s);
    TrimOfPart(left, Trim(s), right);
  }

  function Inner(before: string, block: string, after: string): string { Lead(before) + block + Tail(after) }

  lemma InnerIsTrimmed(before: string, c: string, after: string)
    requires Trimmed(before) && Trimmed(c) && Trimmed(after) && c != ""
    ensures Trimmed(Inner(before, c, after))
  {
    var inner := Inner(before, c, after);
    assert inner[0] == if before == "" then c[0] else before[0];
    assert inner[|inner| - 1] == if after == "" then c[|c| - 1] else after[|after| - 1];
  }

  lemma LeadOfTrimEnd(before: string) returns (left: string)
    ensures forall c <- left :: IsSpace(c)
    ensures Lead(TrimEnd(before)) == left + Lead(Trim(before))
  {
    hide Trim, TrimStart, TrimEnd;
    var l, r := Padding(before);
    left := if Trim(before) == "" then "" else l;
  }

  lemma TailOfTrimStart(after: string) returns (right: string)
    ensures forall c <- right :: IsSpace(c)
    ensures Tail(TrimStart(after)) == Tail(Trim(after)) + right
  {
    hide Trim, TrimStart, TrimEnd;
    var l, r := Padding(after);
    right := if Trim(after) == "" then "" else r;
  }

  /** Trimming a section between two texts trims the outer ends of the texts. */
  lemma TrimOfInner(before: string, c: string, after: string)
    requires c != "" && Trimmed(c)
    ensures Trim(Inner(TrimEnd(before), c, TrimStart(after))) == Inner(Trim(before), c, Trim(after))
  {
    hide Trim, TrimStart, TrimEnd, Lead, Tail, Trimmed;
    var left := LeadOfTrimEnd(before);
    var right := TailOfTrimStart(after);
    TrimIsTrimmed(before);
    TrimIsTrimmed(after);
    InnerIsTrimmed(Trim(before), c, Trim(after));
    TrimOfPadded(left, Inner(Trim(before), c, Trim(after)), right);
    var l, t := Lead(Trim(before)), Tail(Trim(after));
    assert (left + l) + c + (t + right) == left + (l + c + t) + right;
  }

  lemma InnerIsFramed(before: string, block: string, after: string)
    ensures Framed(before, block, after) == Inner(before, block, after) + "\n"
  {
  }

  /** What rewriting a section leaves: the text before it and the text behind it, each trimmed. */
  lemma UpdateIsFramed(text: string, content: string)
    requires HasBlock(text) && Trim(content) != ""
    ensures Upserted(Some(text), content)
            == Framed(Trim(text[..IndexOf(text, SECTION_START)]), Trim(content),
                      Trim(text[IndexOf(text, SECTION_END) + |SECTION_END|..]))
  {
    hide Trim, TrimStart, TrimEnd, Join, NonEmpty, Inner, IndexOf;
    var c := Trim(content);
    var before := text[..IndexOf(text, SECTION_START)];
    var after := text[IndexOf(text, SECTION_END) + |SECTION_END|..];
    var next := Join(NonEmpty([TrimEnd(before), c, TrimStart(after)]), "\n\n");
    JoinOfThree(TrimEnd(before), c, TrimStart(after));
    InnerIsFramed(TrimEnd(before), c, TrimStart(after));
    InnerIsFramed(Trim(before), c, Trim(after));
    assert next == (next + "\n")[..|next|] == Inner(TrimEnd(before), c, TrimStart(after));
    TrimIsTrimmed(content);
    TrimOfInner(before, c, after);
  }

  /** Rewriting the section of a file that was written before. */
  lemma RewriteFramed(before: string, content1: string, content2: string, after: string)
    requires IsBlock(content1) && Trim(content2) != "" && NoMarkers(before)
    ensures Upserted(Some(Framed(before, Trim(content1), after)), content2)
            == Framed(Trim(before), Trim(content2), Trim(after))
  {
    hide Trim, IndexOf, Upserted, Lead, Tail, IsBlock;
    var c := Trim(content1);
    var lead, rest := Lead(before), Tail(after) + "\n";
    var text := lead + c + rest;
    BlockIsFound(before, content1, rest);
    UpdateIsFramed(text, content2);
    assert text[..|lead|] == lead && text[|lead| + |c|..] == rest;
    assert text == Framed(before, c, after);
    TrimOfLead(before);
    TrimOfTail(after);
  }

  lemma TrimOfLead(before: string)
    ensures Trim(Lead(before)) == Trim(before)
  {
    hide Trim, TrimStart, TrimEnd;
    var left, right := Padding(before);
    TrimIsTrimmed(before);
    TrimOfPadded(left, Trim(before), right + "\n\n");
    assert before + "\n\n" == left + Trim(before) + (right + "\n\n");
  }

  lemma TrimOfTail(after: string)
    ensures Trim(Tail(after) + "\n") == Trim(after)
  {
    hide Trim, TrimStart, TrimEnd;
    var left, right := Padding(after);
    TrimIsTrimmed(after);
    if after == "" {
      assert Trim(after) == "" by { assert left + Trim(after) + right == ""; }
      TrimOfPadded("", "", "\n");
      assert "" + "" + "\n" == "" + "\n";
    } else {
      TrimOfPadded("\n\n" + left, Trim(after), right + "\n");
      assert ("\n\n" + after) + "\n" == ("\n\n" + left) + Trim(after) + (right + "\n");
    }
  }

  // ---- The last write wins ----

  lemma NoneInSlice(text: string, pattern: string, lo: nat, hi: nat)
    requires lo <= hi <= |text| && pattern != ""
    requires IndexOf(text, pattern) < 0 || hi <= IndexOf(text, pattern)
    ensures IndexOf(text[lo..hi], pattern) < 0
  {
    hide At, IndexOf;
    var r := IndexOf(text[lo..hi], pattern);
    if r >= 0 {
      AtInSlice(text, pattern, lo, hi, r);
    }
  }

  lemma AtInSlice(text: string, pattern: string, lo: nat, hi: nat, i: int)
    requires lo <= hi <= |text| && pattern != "" && At(text[lo..hi], pattern, i)
    ensures At(text, pattern, lo + i) && lo <= lo + i < hi
  {
    SliceOfSlice(text, lo, hi, i, i + |pattern|);
  }

  /** A pattern that ends in something visible is not affected by trailing white space. */
  lemma IndexInTrimEnd(s: string, pattern: string)
    requires pattern != "" && !IsSpace(pattern[|pattern| - 1])
    ensures IndexOf(TrimEnd(s), pattern) == IndexOf(s, pattern)
  {
    var t := TrimEnd(s);
    var i := IndexOf(s, pattern);
    if i < 0 {
      NoneInSlice(s, pattern, 0, |t|);
    } else {
      var last := i + |pattern| - 1;
      assert s[last] == pattern[|pattern| - 1] by {
        assert s[i..i + |pattern|][|pattern| - 1] == s[last];
      }
      assert t + s[|t|..] == s;
      forall j | 0 <= j <= i ensures At(t, pattern, j) <==> At(s, pattern, j) {
        AtPrefix(t, s[|t|..], pattern, j);
      }
      IndexOfIs(t, pattern, i);
    }
  }

  /** When the second of two writes leaves no trace of the first. */
  predicate Rewritable(current: Option<string>) {
    current.Some? ==>
      var text := current.value;
      HasBlock(text) || (NoMarkers(text) && (IsBlank(text) || !IsSpace(text[0])))
  }

  lemma AppendIsFramed(text: string, content: string)
    requires !HasBlock(text)
    ensures Upserted(Some(text), content) == Framed(TrimEnd(text), Trim(content), "")
    ensures TrimEnd(text) == "" <==> IsBlank(text)
  {
    hide HasBlock, Trim, TrimStart, TrimEnd, IndexOf, Join, NonEmpty;
    var left, right := Padding(text);
    assert TrimEnd(text) + "" == TrimEnd(text);
    assert "" + Trim(content) + "" == Trim(content);
    var d, c := TrimEnd(text), Trim(content);
    assert d + "\n\n" + c + "" == d + "\n\n" + c;
  }

  lemma TrimHasNoMarkers(text: string, hi: nat)
    requires hi <= |text|
    requires IndexOf(text, SECTION_START) < 0 || hi <= IndexOf(text, SECTION_START)
    requires IndexOf(text, SECTION_END) < 0 || hi <= IndexOf(text, SECTION_END)
    ensures NoMarkers(Trim(text[..hi]))
  {
    hide Trim, IndexOf;
    var lo := TrimIsSlice(text[..hi]);
    var hi' := lo + |Trim(text[..hi])|;
    assert text[..hi][lo..hi'] == text[lo..hi'];
    NoneInSlice(text, SECTION_START, lo, hi');
    NoneInSlice(text, SECTION_END, lo, hi');
  }

  lemma UpdatedIsRewritten(text: string, content1: string, content2: string)
    requires IsBlock(content1) && Trim(content2) != "" && HasBlock(text)
    ensures Upserted(Some(Upserted(Some(text), content1)), content2) == Upserted(Some(text), content2)
  {
    hide Upserted, Framed, Trim, NoMarkers, IndexOf;
    var i, j := IndexOf(text, SECTION_START), IndexOf(text, SECTION_END);
    var before, after := text[..i], text[j + |SECTION_END|..];
    UpdateIsFramed(text, content1);
    UpdateIsFramed(text, content2);
    TrimHasNoMarkers(text, i);
    RewriteFramed(Trim(before), content1, content2, Trim(after));
    TrimIsIdempotent(before);
    TrimIsIdempotent(after);
  }

  lemma MarkersAreVisible()
    ensures SECTION_START != "" && !IsSpace(SECTION_START[|SECTION_START| - 1])
    ensures SECTION_END != "" && !IsSpace(SECTION_END[|SECTION_END| - 1])
  {
  }

  lemma AppendedIsRewrittenIff(text: string, content1: string, content2: string)
    requires IsBlock(content1) && IsBlock(content2) && NoMarkers(text)
    ensures Upserted(Some(Upserted(Some(text), content1)), content2) == Upserted(Some(text), content2)
            <==> IsBlank(text) || !IsSpace(text[0])
  {
    hide Upserted, Trim, TrimEnd, TrimStart, IndexOf;
    var d := TrimEnd(text);
    MarkersAreVisible();
    IndexInTrimEnd(text, SECTION_START);
    IndexInTrimEnd(text, SECTION_END);
    AppendIsFramed(text, content1);
    AppendIsFramed(text, content2);
    RewriteFramed(d, content1, content2, "");
    TrimOfPadded("", "", "");
    assert "" + "" + "" == "" && Trim("") == "";
    TrimIsIdempotent(text);
    assert |Framed(Trim(text), Trim(content2), "")| == |Framed(d, Trim(content2), "")| <==> |Trim(text)| == |d|;
    FirstIsVisibleIff(text);
  }

  lemma FirstIsVisibleIff(text: string)
    ensures |Trim(text)| == |TrimEnd(text)| <==> IsBlank(text) || !IsSpace(text[0])
    ensures |Trim(text)| == |TrimEnd(text)| ==> Trim(text) == TrimEnd(text)
  {
    var left, right := Padding(text);
    if !IsBlank(text) {
      TrimIsTrimmed(text);
      if left == "" {
        assert text[0] == Trim(text)[0];
      } else {
        assert text[0] == left[0] && left[0] in left;
      }
    }
  }

  lemma StrayEndStays(d: string, content: string)
    requires IsBlock(content) && d != "" && !HasBlock(d) && IndexOf(d, SECTION_END) >= 0
    ensures !HasBlock(Framed(d, Trim(content), ""))
  {
    hide Trim, IndexOf;
    var c := Trim(content);
    var first, rest := Framed(d, c, ""), "\n\n" + c + "\n";
    MarkersHaveNoBreaks();
    assert first == d + rest && first == d + "\n\n" + (c + "\n");
    IndexInFront(d, rest, SECTION_END);
    if IndexOf(d, SECTION_START) >= 0 {
      IndexInFront(d, rest, SECTION_START);
    } else if IndexOf(first, SECTION_START) >= 0 {
      AtSplits(d, c + "\n", SECTION_START, IndexOf(first, SECTION_START));
    }
  }

  /** A stray end marker, or one in front of the start marker, makes the second write append again. */
  lemma StrayEndAppendsAgain(text: string, content1: string, content2: string)
    requires IsBlock(content1) && IsBlock(content2) && !HasBlock(text) && IndexOf(text, SECTION_END) >= 0
    ensures Upserted(Some(Upserted(Some(text), content1)), content2) != Upserted(Some(text), content2)
  {
    hide Upserted, Trim, TrimEnd, TrimStart, IndexOf, Framed;
    var d := TrimEnd(text);
    MarkersAreVisible();
    IndexInTrimEnd(text, SECTION_START);
    IndexInTrimEnd(text, SECTION_END);
    AppendIsFramed(text, content1);
    AppendIsFramed(text, content2);
    assert d != "";
    StrayEndStays(d, content1);
    var first := Framed(d, Trim(content1), "");
    AppendIsFramed(first, content2);
    LongerThanLead(d, content1);
    FramedLength(d, Trim(content2));
    FramedLength(TrimEnd(first), Trim(content2));
  }

  lemma FramedLength(before: string, block: string)
    ensures |Framed(before, block, "")| == (if before == "" then 0 else |before| + 2) + |block| + 1
  {
  }

  lemma LongerThanLead(d: string, content: string)
    requires d != "" && IsBlock(content)
    ensures |TrimEnd(Framed(d, Trim(content), ""))| > |d|
  {
    hide *;
    var c := Trim(content);
    TrimIsTrimmed(content);
    BlockEndsVisibly(content);
    assert Framed(d, c, "") == d + "\n\n" + c + "\n" by { FramedBehind(d, c); }
    TrimEndOfVisible(d + "\n\n" + c, "\n");
  }

  lemma FramedBehind(d: string, c: string)
    requires d != ""
    ensures Framed(d, c, "") == d + "\n\n" + c + "\n"
  {
    assert d + "\n\n" + c + "" == d + "\n\n" + c;
  }

  lemma BlockEndsVisibly(content: string)
    requires IsBlock(content)
    ensures var c := Trim(content); c != "" && !IsSpace(c[|c| - 1])
  {
    hide Trim, IndexOf;
    TrimIsTrimmed(content);
  }

  lemma TrimEndOfVisible(s: string, right: string)
    requires s != "" && !IsSpace(s[|s| - 1])
    ensures |TrimEnd(s + right)| >= |s|
  {
    var all := s + right;
    assert all[|s| - 1] == s[|s| - 1];
  }

  lemma StrayStartIsFound(d: string, content: string)
    requires IsBlock(content) && IndexOf(d, SECTION_START) >= 0 && IndexOf(d, SECTION_END) < 0
    ensures var first := Framed(d, Trim(content), "");
            && HasBlock(first) && IndexOf(first, SECTION_START) == IndexOf(d, SECTION_START)
            && first[IndexOf(first, SECTION_END) + |SECTION_END|..] == "\n"
  {
    hide Trim, IndexOf;
    var c := Trim(content);
    var first, rest := Framed(d, c, ""), "\n\n" + c + "\n";
    MarkersHaveNoBreaks();
    assert d != "";
    assert first == d + rest && first == d + "\n\n" + (c + "\n");
    IndexInFront(d, rest, SECTION_START);
    IndexInFront(c, "\n", SECTION_END);
    IndexBehind(d, c + "\n", SECTION_END);
  }

  /** A stray start marker makes the second write drop what stands behind it. */
  lemma StrayStartDropsText(text: string, content1: string, content2: string)
    requires IsBlock(content1) && IsBlock(content2)
    requires IndexOf(text, SECTION_START) >= 0 && IndexOf(text, SECTION_END) < 0
    ensures Upserted(Some(Upserted(Some(text), content1)), content2) != Upserted(Some(text), content2)
  {
    hide Upserted, Trim, TrimEnd, TrimStart, IndexOf, Framed;
    var d := TrimEnd(text);
    MarkersAreVisible();
    IndexInTrimEnd(text, SECTION_START);
    IndexInTrimEnd(text, SECTION_END);
    AppendIsFramed(text, content1);
    AppendIsFramed(text, content2);
    StrayStartIsFound(d, content1);
    var first := Framed(d, Trim(content1), "");
    UpdateIsFramed(first, content2);
    TrimOfTail("");
    TrimOfPadded("", "", "");
    assert "" + "" + "" == "" && Tail("") + "\n" == "\n";
    var i := IndexOf(d, SECTION_START);
    var _ := TrimIsSlice(first[..i]);
    FramedLength(d, Trim(content2));
    FramedLength(Trim(first[..i]), Trim(content2));
  }

  /** Writing a section twice is the same as writing it the second way at once if and only if the
      file does not exist, or has a start marker with the first end marker behind it, or has no
      marker at all and is blank or does not start with white space. */
  lemma LastWriteWinsIff(current: Option<string>, content1: string, content2: string)
    requires IsBlock(content1) && IsBlock(content2)
    ensures Upserted(Some(Upserted(current, content1)), content2) == Upserted(current, content2)
            <==> Rewritable(current)
  {
    hide Upserted, Trim, IndexOf;
    match current
    case None => NoFileIsRewritten(content1, content2);
    case Some(text) =>
      if HasBlock(text) {
        UpdatedIsRewritten(text, content1, content2);
      } else if NoMarkers(text) {
        AppendedIsRewrittenIff(text, content1, content2);
      } else if IndexOf(text, SECTION_END) >= 0 {
        StrayEndAppendsAgain(text, content1, content2);
      } else {
        StrayStartDropsText(text, content1, content2);
      }
  }

  lemma NoFileIsRewritten(content1: string, content2: string)
    requires IsBlock(content1) && IsBlock(content2)
    ensures Upserted(Some(Upserted(None, content1)), content2) == Upserted(None, content2)
  {
    hide Trim, IndexOf;
    TrimOfPadded("", "", "");
    assert "" + "" + "" == "" && Trim("") == "";
    assert Upserted(None, content1) == Framed("", Trim(content1), "") by {
      assert "" + Trim(content1) + "" == Trim(content1);
    }
    assert Upserted(None, content2) == Framed("", Trim(content2), "") by {
      assert "" + Trim(content2) + "" == Trim(content2);
    }
    hide Upserted;
    RewriteFramed("", content1, content2, "");
  }
}
