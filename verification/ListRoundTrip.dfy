/** A printed nested list is read back as the same list. */
module ListRoundTrip {
  import opened Text
  import opened DocumentTypes
  import opened InlineParser
  import opened InlineRenderer
  import opened LineRecognizers
  import opened BlockParser
  import opened BlockRenderer

  const MAX_ITEM_NUMBER: nat := 999_999_999

  /** The items survive their own printing and scanning. */
  predicate Faithful(content: seq<Inline>) {
    ParseInline(RenderInline(content)) == content
  }

  /** Text that fills one line of a list item. */
  predicate ItemLineText(t: string) {
    t != "" && Trimmed(t) && DotOnly(t)
  }

  /** A list item that comes back: one line of trimmed text, a number of at most nine digits, and
      no bullet text that looks like the box of a task. */
  predicate ShapeComesBack(shape: Shape, orderedIndex: nat) {
    && shape.IsListItem()
    && ItemLineText(RenderInline(ContentOf(shape)))
    && Faithful(ContentOf(shape))
    && (shape.BulletItem? ==> MatchTask(" " + RenderInline(ContentOf(shape))).None?)
    && (shape.NumberedItem? ==> ItemNumber(shape, orderedIndex) <= MAX_ITEM_NUMBER)
  }

  predicate ItemsComeBack(blocks: seq<Block>, orderedIndex: nat) {
    blocks == []
    || (&& ShapeComesBack(blocks[0].shape, orderedIndex)
        && ItemsComeBack(blocks[0].children, 1)
        && ItemsComeBack(blocks[1..], NextIndex(blocks[0].shape, orderedIndex)))
  }

  /** How an item comes back: its number is made explicit, and a number 0 is dropped. */
  function CanonShape(shape: Shape, orderedIndex: nat): Shape {
    if shape.NumberedItem? then
      var number := ItemNumber(shape, orderedIndex);
      NumberedItem(if number == 0 then None else Some(number), shape.content)
    else shape
  }

  function CanonItems(blocks: seq<Block>, orderedIndex: nat): (r: seq<Block>)
    ensures |r| == |blocks|
  {
    if blocks == [] then []
    else
      [Block(CanonShape(blocks[0].shape, orderedIndex), CanonItems(blocks[0].children, 1))]
      + CanonItems(blocks[1..], NextIndex(blocks[0].shape, orderedIndex))
  }

  function KindOf(shape: Shape, orderedIndex: nat): ItemKind {
    match shape
    case BulletItem(_) => Bullet
    case CheckItem(checked, _) => Check(checked)
    case _ => Numbered(ItemNumber(shape, orderedIndex))
  }

  function MarkerOf(shape: Shape, depth: nat, orderedIndex: nat): Marker {
    Marker(depth * CHILD_INDENT, KindOf(shape, orderedIndex), RenderInline(ContentOf(shape)))
  }

  /** The markers the parser should find, line by line. */
  function MarkersFrom(blocks: seq<Block>, depth: nat, orderedIndex: nat): seq<Marker> {
    if blocks == [] then []
    else
      [MarkerOf(blocks[0].shape, depth, orderedIndex)]
      + MarkersFrom(blocks[0].children, depth + 1, 1)
      + MarkersFrom(blocks[1..], depth, NextIndex(blocks[0].shape, orderedIndex))
  }

  // ---- Numbers ----

  function PowerOfTen(k: nat): nat {
    if k == 0 then 1 else 10 * PowerOfTen(k - 1)
  }

  lemma {:induction false} NumberTextReads(n: nat)
    ensures forall i | 0 <= i < |NumberText(n)| :: IsDigit(NumberText(n)[i])
    ensures NumberText(n) != ""
    ensures NumberOf(NumberText(n)) == n
  {
    if n < 10 {
      assert NumberText(n)[..0] == "";
    } else {
      NumberTextReads(n / 10);
      assert NumberText(n)[..|NumberText(n)| - 1] == NumberText(n / 10);
    }
  }

  lemma {:induction false} NumberTextLength(n: nat, k: nat)
    requires k >= 1 && n < PowerOfTen(k)
    ensures |NumberText(n)| <= k
  {
    if n >= 10 {
      assert PowerOfTen(1) == 10 * PowerOfTen(0);
      assert k >= 2;
      NumberTextLength(n / 10, k - 1);
    }
  }

  lemma NineDigits(n: nat)
    requires n <= MAX_ITEM_NUMBER
    ensures |NumberText(n)| <= 9
  {
    assert PowerOfTen(9) == 1_000_000_000;
    NumberTextLength(n, 9);
  }

  lemma {:induction false} DigitsAtStartIs(digits: string, rest: string)
    requires forall i | 0 <= i < |digits| :: IsDigit(digits[i])
    requires rest != "" && !IsDigit(rest[0])
    ensures DigitsAtStart(digits + rest) == |digits|
  {
    if digits == "" {
      assert digits + rest == rest;
    } else {
      assert (digits + rest)[1..] == digits[1..] + rest;
      DigitsAtStartIs(digits[1..], rest);
    }
  }

  // ---- One line ----

  lemma {:induction false} CountSpaces(n: nat)
    ensures CountIndent(Repeat(' ', n)) == n
  {
    if n > 0 {
      assert Repeat(' ', n)[1..] == Repeat(' ', n - 1);
      CountSpaces(n - 1);
    }
  }

  lemma SeparatedText(t: string)
    requires ItemLineText(t)
    ensures MatchSeparatedText(" " + t) == Some(t)
  {
    LeadingSpacesAt(" " + t, 1);
    TrimOfTrimmed(t);
  }

  lemma NumberedBody(n: nat, t: string)
    requires n <= MAX_ITEM_NUMBER && ItemLineText(t)
    ensures MatchItemBody(NumberText(n) + "." + " " + t) == Some((Numbered(n), t))
  {
    hide MatchSeparatedText, MatchTask, NumberText, NumberOf;
    var digits := NumberText(n);
    var body := digits + "." + " " + t;
    NumberTextReads(n);
    NineDigits(n);
    assert body == digits + ("." + " " + t);
    DigitsAtStartIs(digits, "." + " " + t);
    assert body[|digits| + 1..] == " " + t;
    assert body[..|digits|] == digits;
    SeparatedText(t);
    assert IsDigit(body[0]);
  }

  lemma CheckBody(checked: bool, t: string)
    requires ItemLineText(t)
    ensures MatchItemBody((if checked then "- [x]" else "- [ ]") + " " + t) == Some((Check(checked), t))
  {
    hide MatchSeparatedText, MatchNumbered;
    var body := (if checked then "- [x]" else "- [ ]") + " " + t;
    var box := body[2..];
    LeadingSpacesAt(body[1..], 1);
    assert body[1..][1..] == box;
    assert box[3..] == " " + t;
    SeparatedText(t);
  }

  lemma BulletBody(t: string)
    requires ItemLineText(t) && MatchTask(" " + t).None?
    ensures MatchItemBody("-" + " " + t) == Some((Bullet, t))
  {
    hide MatchSeparatedText, MatchNumbered, MatchTask;
    var body := "-" + " " + t;
    assert body[1..] == " " + t;
    SeparatedText(t);
  }

  lemma BodyMatches(shape: Shape, orderedIndex: nat)
    requires ShapeComesBack(shape, orderedIndex)
    ensures var t := RenderInline(ContentOf(shape));
            MatchItemBody(ListMarker(shape, orderedIndex) + " " + t) == Some((KindOf(shape, orderedIndex), t))
  {
    hide MatchItemBody, ItemLineText, Faithful, MatchTask, NumberText, RenderInline;
    var t := RenderInline(ContentOf(shape));
    match shape
    case BulletItem(_) => BulletBody(t);
    case CheckItem(checked, _) => CheckBody(checked, t);
    case NumberedItem(_, _) => NumberedBody(ItemNumber(shape, orderedIndex), t);
  }

  lemma MarkerStartsWithText(shape: Shape, orderedIndex: nat)
    requires shape.IsListItem()
    ensures var m := ListMarker(shape, orderedIndex); m != "" && !IsSpace(m[0])
  {
    if shape.NumberedItem? {
      NumberTextReads(ItemNumber(shape, orderedIndex));
    }
  }

  lemma IndentedLine(indent: nat, body: string)
    requires body != "" && Trimmed(body)
    ensures var line := Repeat(' ', indent) + body;
            && TrimEnd(line) == line
            && LeadingSpaces(line) == indent
            && line[indent..] == body
            && CountIndent(line[..indent]) == indent
  {
    var line := Repeat(' ', indent) + body;
    assert line[indent..] == body && line[..indent] == Repeat(' ', indent);
    CountSpaces(indent);
    LeadingSpacesAt(line, indent);
    assert line[|line| - 1] == body[|body| - 1];
    TrimEndAt(line, |line|);
  }

  /** The printed line of an item is read as that item, at that depth. */
  lemma LineMatches(shape: Shape, depth: nat, orderedIndex: nat)
    requires ShapeComesBack(shape, orderedIndex)
    ensures MatchListItem(ItemLine(shape, depth, orderedIndex)) == Some(MarkerOf(shape, depth, orderedIndex))
  {
    hide MatchItemBody, KindOf, ListMarker, RenderInline, MatchTask, ParseInline, Repeat, CountIndent;
    var t := RenderInline(ContentOf(shape));
    var m := ListMarker(shape, orderedIndex);
    MarkerStartsWithText(shape, orderedIndex);
    BodyMatches(shape, orderedIndex);
    var body := m + " " + t;
    assert body[|body| - 1] == t[|t| - 1] && body[0] == m[0];
    IndentedLine(depth * CHILD_INDENT, body);
    assert Repeat(' ', depth * CHILD_INDENT) + m + " " + t == Repeat(' ', depth * CHILD_INDENT) + body;
  }

  // ---- All lines ----

  /** Line by line, the parser finds the expected marker. */
  ghost predicate LinesMatch(lines: seq<string>, markers: seq<Marker>) {
    |lines| == |markers| && forall i | 0 <= i < |lines| :: MatchListItem(lines[i]) == Some(markers[i])
  }

  lemma LinesMatchConcat(a: seq<string>, ma: seq<Marker>, b: seq<string>, mb: seq<Marker>)
    requires LinesMatch(a, ma) && LinesMatch(b, mb)
    ensures LinesMatch(a + b, ma + mb)
  {
    hide MatchListItem;
  }

  lemma {:induction false} AllLinesMatch(blocks: seq<Block>, depth: nat, orderedIndex: nat)
    requires ItemsComeBack(blocks, orderedIndex)
    ensures LinesMatch(RenderItemsFrom(blocks, depth, orderedIndex), MarkersFrom(blocks, depth, orderedIndex))
    decreases blocks
  {
    hide ItemLine, MarkerOf, MatchListItem, ShapeComesBack;
    if blocks != [] {
      var shape, children := blocks[0].shape, blocks[0].children;
      LineMatches(shape, depth, orderedIndex);
      assert LinesMatch([ItemLine(shape, depth, orderedIndex)], [MarkerOf(shape, depth, orderedIndex)]);
      AllLinesMatch(children, depth + 1, 1);
      AllLinesMatch(blocks[1..], depth, NextIndex(shape, orderedIndex));
      hide LinesMatch;
      LinesMatchConcat([ItemLine(shape, depth, orderedIndex)], [MarkerOf(shape, depth, orderedIndex)],
        RenderItemsFrom(children, depth + 1, 1), MarkersFrom(children, depth + 1, 1));
      LinesMatchConcat(
        [ItemLine(shape, depth, orderedIndex)] + RenderItemsFrom(children, depth + 1, 1),
        [MarkerOf(shape, depth, orderedIndex)] + MarkersFrom(children, depth + 1, 1),
        RenderItemsFrom(blocks[1..], depth, NextIndex(shape, orderedIndex)),
        MarkersFrom(blocks[1..], depth, NextIndex(shape, orderedIndex)));
    }
  }

  lemma BlankIsNoItem(line: string)
    requires IsBlank(line)
    ensures MatchListItem(line).None?
  {
    BlankIsAllSpace(line);
    LeadingSpacesAt(line, |line|);
    assert line[|line|..] == "";
  }

  lemma StartsNothing(line: string, indent: nat)
    requires IsBlank(line) || MatchListItem(line).Some?
    ensures !Continues(indent)(line)
  {
  }

  lemma NothingContinues(marker: Marker, tail: seq<string>)
    requires tail == [] || IsBlank(tail[0]) || MatchListItem(tail[0]).Some?
    ensures CountWhile(Continues(marker.indent), tail) == 0
  {
    if tail != [] {
      StartsNothing(tail[0], marker.indent);
    }
  }

  /** An item without continuation lines. */
  lemma CollectOne(line: string, marker: Marker, tail: seq<string>)
    requires MatchListItem(line) == Some(marker)
    requires CountWhile(Continues(marker.indent), tail) == 0
    ensures var run := CollectItems(tail);
            CollectItems([line] + tail) == ListRun([marker] + run.items, 1 + run.used)
  {
    hide MatchListItem, IsBlank, Continues, CountWhile, Trim;
    var all := [line] + tail;
    assert all[1..] == tail && all[1 + 0..] == tail && all[1..1 + 0] == [];
    assert [marker.content] + TrimAll([]) == [marker.content];
  }

  lemma CollectNone(lines: seq<string>)
    requires lines == [] || IsBlank(lines[0])
    ensures CollectItems(lines) == ListRun([], 0)
  {
    if lines != [] {
      BlankIsNoItem(lines[0]);
    }
  }

  /** Lines that all match, then a blank line or the end: the run of items is exactly those. */
  lemma {:induction false} CollectsAll(lines: seq<string>, markers: seq<Marker>, rest: seq<string>)
    requires LinesMatch(lines, markers)
    requires rest == [] || IsBlank(rest[0])
    ensures CollectItems(lines + rest) == ListRun(markers, |lines|)
    decreases |lines|
  {
    hide MatchListItem, IsBlank, CollectItems;
    if lines == [] {
      assert lines + rest == rest;
      CollectNone(rest);
    } else {
      var tail := lines[1..] + rest;
      assert MatchListItem(lines[0]) == Some(markers[0]);
      CollectsAll(lines[1..], markers[1..], rest);
      if lines[1..] != [] {
        assert tail[0] == lines[1] && MatchListItem(lines[1]) == Some(markers[1]);
      }
      NothingContinues(markers[0], tail);
      CollectOne(lines[0], markers[0], tail);
      assert [lines[0]] + tail == lines + rest;
      assert [markers[0]] + markers[1..] == markers;
    }
  }

  // ---- The forest ----

  lemma {:induction false} MarkersAreDeep(blocks: seq<Block>, depth: nat, orderedIndex: nat)
    ensures forall m <- MarkersFrom(blocks, depth, orderedIndex) :: m.indent >= depth * CHILD_INDENT
    ensures var markers := MarkersFrom(blocks, depth, orderedIndex);
            blocks != [] ==> markers != [] && markers[0].indent == depth * CHILD_INDENT
    decreases blocks
  {
    hide KindOf, RenderInline;
    if blocks != [] {
      MarkersAreDeep(blocks[0].children, depth + 1, 1);
      MarkersAreDeep(blocks[1..], depth, NextIndex(blocks[0].shape, orderedIndex));
    }
  }

  lemma {:induction false} DeeperThanIs(a: seq<Marker>, b: seq<Marker>, indent: nat)
    requires forall m <- a :: m.indent > indent
    requires b == [] || b[0].indent <= indent
    ensures DeeperThan(a + b, indent) == |a|
  {
    if a == [] {
      assert a + b == b;
    } else {
      assert (a + b)[1..] == a[1..] + b;
      DeeperThanIs(a[1..], b, indent);
    }
  }

  lemma ShapeReadsBack(shape: Shape, depth: nat, orderedIndex: nat)
    requires ShapeComesBack(shape, orderedIndex)
    ensures ItemShape(MarkerOf(shape, depth, orderedIndex)) == CanonShape(shape, orderedIndex)
  {
    hide ParseInline, RenderInline, MatchTask, ItemLineText;
  }

  lemma ForestStep(first: Marker, a: seq<Marker>, b: seq<Marker>)
    requires forall m <- a :: m.indent > first.indent
    requires b == [] || b[0].indent <= first.indent
    ensures Forest([first] + a + b) == [Block(ItemShape(first), Forest(a))] + Forest(b)
  {
    hide ItemShape;
    var items := [first] + a + b;
    assert items[1..] == a + b;
    DeeperThanIs(a, b, first.indent);
    assert items[1..1 + |a|] == a && items[1 + |a|..] == b;
  }

  /** The markers of a printed forest build that forest again. */
  lemma {:induction false} ForestOfMarkers(blocks: seq<Block>, depth: nat, orderedIndex: nat)
    requires ItemsComeBack(blocks, orderedIndex)
    ensures Forest(MarkersFrom(blocks, depth, orderedIndex)) == CanonItems(blocks, orderedIndex)
    decreases blocks
  {
    hide Forest, MarkerOf, ShapeComesBack, CanonShape, ItemShape;
    if blocks == [] {
      NoForest();
    } else {
      var shape, children, rest := blocks[0].shape, blocks[0].children, blocks[1..];
      var first := MarkerOf(shape, depth, orderedIndex);
      var a, b := MarkersFrom(children, depth + 1, 1), MarkersFrom(rest, depth, NextIndex(shape, orderedIndex));
      assert first.indent == depth * CHILD_INDENT by { MarkersAreDeep(blocks, depth, orderedIndex); }
      MarkersAreDeep(children, depth + 1, 1);
      MarkersAreDeep(rest, depth, NextIndex(shape, orderedIndex));
      ForestStep(first, a, b);
      ForestOfMarkers(children, depth + 1, 1);
      ForestOfMarkers(rest, depth, NextIndex(shape, orderedIndex));
      ShapeReadsBack(shape, depth, orderedIndex);
    }
  }

  lemma NoForest()
    ensures Forest([]) == []
  {
  }

  /** For every forest of list items whose texts can stand in a list line, the indentation parser
      inverts the two-space printer: the shape of the forest, the kind of every item, its check
      mark, its number and its text come back. */
  lemma NestedListRoundTrip(blocks: seq<Block>, rest: seq<string>)
    requires ItemsComeBack(blocks, 1)
    requires rest == [] || IsBlank(rest[0])
    ensures var lines := RenderItemsFrom(blocks, 0, 1);
            ListStep(lines + rest) == Step(CanonItems(blocks, 1), |lines|)
  {
    hide CollectItems, Forest, RenderItemsFrom, MarkersFrom, CanonItems, ItemsComeBack;
    AllLinesMatch(blocks, 0, 1);
    CollectsAll(RenderItemsFrom(blocks, 0, 1), MarkersFrom(blocks, 0, 1), rest);
    ForestOfMarkers(blocks, 0, 1);
  }

  // ---- When nothing changes at all ----

  /** Every numbered item carries a positive number of its own. */
  predicate NumbersExplicit(blocks: seq<Block>) {
    blocks == []
    || (&& (blocks[0].shape.NumberedItem? ==> blocks[0].shape.start.Some? && blocks[0].shape.start.value > 0)
        && NumbersExplicit(blocks[0].children)
        && NumbersExplicit(blocks[1..]))
  }

  lemma NumberKeptIff(shape: Shape, orderedIndex: nat)
    requires orderedIndex >= 1
    ensures CanonShape(shape, orderedIndex) == shape
       <==> (shape.NumberedItem? ==> shape.start.Some? && shape.start.value > 0)
  {
  }

  /** The list comes back unchanged exactly when every numbered item has an explicit positive
      number: an implicit one becomes explicit, and a 0 is dropped. */
  lemma {:induction false} CanonIsIdentityIff(blocks: seq<Block>, orderedIndex: nat)
    requires orderedIndex >= 1
    ensures CanonItems(blocks, orderedIndex) == blocks <==> NumbersExplicit(blocks)
    decreases blocks
  {
    if blocks != [] {
      hide CanonShape;
      var shape := blocks[0].shape;
      NumberKeptIff(shape, orderedIndex);
      CanonIsIdentityIff(blocks[0].children, 1);
      CanonIsIdentityIff(blocks[1..], NextIndex(shape, orderedIndex));
      var c := CanonItems(blocks, orderedIndex);
      assert c[0] == Block(CanonShape(shape, orderedIndex), CanonItems(blocks[0].children, 1));
      assert c[1..] == CanonItems(blocks[1..], NextIndex(shape, orderedIndex));
      assert c == blocks <==> c[0] == blocks[0] && c[1..] == blocks[1..] by {
        assert c == [c[0]] + c[1..] && blocks == [blocks[0]] + blocks[1..];
      }
    }
  }

  /** A printed list is parsed back to the very list if and only if every numbered item carries a
      positive number of its own. */
  lemma ListComesBackIff(blocks: seq<Block>, rest: seq<string>)
    requires ItemsComeBack(blocks, 1)
    requires rest == [] || IsBlank(rest[0])
    ensures ListStep(RenderItemsFrom(blocks, 0, 1) + rest).blocks == blocks <==> NumbersExplicit(blocks)
  {
    hide *;
    NestedListRoundTrip(blocks, rest);
    CanonIsIdentityIff(blocks, 1);
  }

  // ---- Numbers ----

  /** How many of some items are numbered ones. */
  function NumberedIn(blocks: seq<Block>): nat {
    if blocks == [] then 0
    else NumberedIn(blocks[..|blocks| - 1]) + if blocks[|blocks| - 1].shape.NumberedItem? then 1 else 0
  }

  lemma {:induction false} NumberedOfFirst(blocks: seq<Block>, n: nat)
    requires 0 < n <= |blocks|
    ensures NumberedIn(blocks[..n])
         == (if blocks[0].shape.NumberedItem? then 1 else 0) + NumberedIn(blocks[1..][..n - 1])
  {
    if n > 1 {
      NumberedOfFirst(blocks, n - 1);
      assert blocks[..n][..n - 1] == blocks[..n - 1];
      assert blocks[1..][..n - 1][..n - 2] == blocks[1..][..n - 2];
      assert blocks[1..][..n - 1][n - 2] == blocks[n - 1];
    } else {
      assert blocks[..1][..0] == [];
    }
  }

  lemma {:induction false} CanonItemAt(blocks: seq<Block>, orderedIndex: nat, i: nat)
    requires i < |blocks|
    ensures CanonItems(blocks, orderedIndex)[i]
         == Block(CanonShape(blocks[i].shape, orderedIndex + NumberedIn(blocks[..i])), CanonItems(blocks[i].children, 1))
    decreases i
  {
    hide CanonShape;
    if i > 0 {
      NumberedOfFirst(blocks, i);
      CanonItemAt(blocks[1..], NextIndex(blocks[0].shape, orderedIndex), i - 1);
    }
  }

  /** A numbered item without a number of its own is read back with its place among the numbered items
      beside it, counted from 1; one with a positive number keeps that. */
  lemma ItemsAreCounted(blocks: seq<Block>, rest: seq<string>, i: nat)
    requires ItemsComeBack(blocks, 1) && (rest == [] || IsBlank(rest[0]))
    requires i < |blocks| && blocks[i].shape.NumberedItem?
    ensures var read := ListStep(RenderItemsFrom(blocks, 0, 1) + rest).blocks;
            && |read| == |blocks|
            && var start := blocks[i].shape.start;
               && (start.None? ==>
                     read[i].shape == NumberedItem(Some(1 + NumberedIn(blocks[..i])), blocks[i].shape.content))
               && (start.Some? && start.value > 0 ==> read[i].shape == blocks[i].shape)
  {
    hide ItemsComeBack, ListStep, RenderItemsFrom, IsBlank, CanonItems, NumberedIn;
    NestedListRoundTrip(blocks, rest);
    CanonItemAt(blocks, 1, i);
    assert |CanonItems(blocks, 1)| == |blocks|;
  }
}
