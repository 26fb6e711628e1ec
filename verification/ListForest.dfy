/** The indentation rule of lists: who is whose parent. */
module ListForest {
  import opened Text
  import opened DocumentTypes
  import opened LineRecognizers
  import opened BlockParser

  /** The nearest item at or before `j` with a smaller indent; -1 if there is none. */
  function NearestBelow(items: seq<Marker>, j: int, indent: nat): (p: int)
    requires -1 <= j < |items|
    ensures -1 <= p <= j
    decreases j + 1
  {
    if j < 0 then -1
    else if items[j].indent < indent then j
    else NearestBelow(items, j - 1, indent)
  }

  /** The parent of item `k`: the nearest earlier item with a strictly smaller indent. */
  function Parent(items: seq<Marker>, k: nat): (p: int)
    requires k < |items|
    ensures -1 <= p < k
  {
    NearestBelow(items, k - 1, items[k].indent)
  }

  lemma {:induction false} NearestBelowIs(items: seq<Marker>, j: int, indent: nat)
    requires -1 <= j < |items|
    ensures var p := NearestBelow(items, j, indent);
            && (p >= 0 ==> items[p].indent < indent)
            && forall q | p < q <= j :: items[q].indent >= indent
    decreases j + 1
  {
    if j >= 0 && items[j].indent >= indent {
      NearestBelowIs(items, j - 1, indent);
    }
  }

  lemma {:induction false} NearestBelowUnique(items: seq<Marker>, j: int, indent: nat, p: int)
    requires -1 <= p <= j < |items|
    requires p >= 0 ==> items[p].indent < indent
    requires forall q | p < q <= j :: items[q].indent >= indent
    ensures NearestBelow(items, j, indent) == p
    decreases j + 1
  {
    if p < j {
      NearestBelowUnique(items, j - 1, indent, p);
    }
  }

  lemma {:induction false} NearestBelowPrefix(items: seq<Marker>, more: seq<Marker>, j: int, indent: nat)
    requires -1 <= j < |items|
    ensures NearestBelow(items + more, j, indent) == NearestBelow(items, j, indent)
    decreases j + 1
  {
    if j >= 0 {
      NearestBelowPrefix(items, more, j - 1, indent);
    }
  }

  lemma ParentPrefix(items: seq<Marker>, more: seq<Marker>, k: nat)
    requires k < |items|
    ensures Parent(items + more, k) == Parent(items, k)
  {
    NearestBelowPrefix(items, more, k - 1, items[k].indent);
  }

  /** The items from `lo` up to `hi` whose parent is `p`, in line order; p == -1 for the roots. */
  function KidsIn(items: seq<Marker>, p: int, lo: nat, hi: nat): (kids: seq<nat>)
    requires lo <= hi <= |items|
    decreases hi - lo
  {
    if lo == hi then []
    else KidsIn(items, p, lo, hi - 1) + (if Parent(items, hi - 1) == p then [hi - 1] else [])
  }

  function Kids(items: seq<Marker>, p: int): seq<nat> {
    KidsIn(items, p, 0, |items|)
  }

  lemma {:induction false} KidsBounds(items: seq<Marker>, p: int, lo: nat, hi: nat)
    requires lo <= hi <= |items|
    ensures forall i | 0 <= i < |KidsIn(items, p, lo, hi)| :: lo <= KidsIn(items, p, lo, hi)[i] < hi
    ensures forall k <- KidsIn(items, p, lo, hi) :: lo <= k < hi
    decreases hi - lo
  {
    if lo < hi {
      KidsBounds(items, p, lo, hi - 1);
    }
  }

  /** An item is listed among the children of its parent and nowhere else. */
  lemma {:induction false} KidsAre(items: seq<Marker>, p: int, lo: nat, hi: nat, k: nat)
    requires lo <= k < hi <= |items|
    ensures k in KidsIn(items, p, lo, hi) <==> Parent(items, k) == p
    decreases hi - lo
  {
    if k < hi - 1 {
      KidsAre(items, p, lo, hi - 1, k);
    } else {
      KidsBounds(items, p, lo, hi - 1);
    }
  }

  lemma {:induction false} KidsPrefix(items: seq<Marker>, more: seq<Marker>, p: int, lo: nat, hi: nat)
    requires lo <= hi <= |items|
    ensures KidsIn(items + more, p, lo, hi) == KidsIn(items, p, lo, hi)
    decreases hi - lo
  {
    if lo < hi {
      KidsPrefix(items, more, p, lo, hi - 1);
      ParentPrefix(items, more, hi - 1);
    }
  }

  lemma {:induction false} KidsSplit(items: seq<Marker>, p: int, lo: nat, mid: nat, hi: nat)
    requires lo <= mid <= hi <= |items|
    ensures KidsIn(items, p, lo, hi) == KidsIn(items, p, lo, mid) + KidsIn(items, p, mid, hi)
    decreases hi - mid
  {
    hide Parent;
    if mid < hi {
      KidsSplit(items, p, lo, mid, hi - 1);
    }
  }

  lemma {:induction false} NoKids(items: seq<Marker>, p: int, lo: nat, hi: nat)
    requires lo <= hi <= |items|
    requires forall j | lo <= j < hi :: Parent(items, j) != p
    ensures KidsIn(items, p, lo, hi) == []
    decreases hi - lo
  {
    hide Parent;
    if lo < hi {
      NoKids(items, p, lo, hi - 1);
    }
  }

  /** One item added: its parent gets one more child, at the end, and nobody else changes. */
  lemma KidsOfOneMore(items: seq<Marker>, item: Marker, p: int)
    ensures Kids(items + [item], p)
         == Kids(items, p) + (if Parent(items + [item], |items|) == p then [|items|] else [])
  {
    hide Parent;
    KidsPrefix(items, [item], p, 0, |items|);
  }

  // ---- Segments ----

  lemma {:induction false} DeeperThanSplits(items: seq<Marker>, indent: nat)
    ensures var n := DeeperThan(items, indent);
            && (forall i | 0 <= i < n :: items[i].indent > indent)
            && (n < |items| ==> items[n].indent <= indent)
  {
    if items != [] && items[0].indent > indent {
      DeeperThanSplits(items[1..], indent);
      var n := DeeperThan(items[1..], indent);
      forall i | 0 <= i < n + 1 ensures items[i].indent > indent {
        if i > 0 {
          assert items[i] == items[1..][i - 1];
        }
      }
      if n + 1 < |items| {
        assert items[n + 1] == items[1..][n];
      }
    }
  }

  /** Items lo..hi hang below item p (or are roots): no parent lies strictly between p and lo, and
      the items end, or drop back to the indent of p, at hi. */
  ghost predicate Segment(items: seq<Marker>, p: int, lo: nat, hi: nat) {
    && -1 <= p < lo <= hi <= |items|
    && (forall j | lo <= j < hi :: Parent(items, j) == p || Parent(items, j) >= lo)
    && (hi < |items| ==> p >= 0 && items[hi].indent <= items[p].indent)
    && (p >= 0 ==> forall j | lo <= j < hi :: items[j].indent > items[p].indent)
  }

  lemma WholeIsSegment(items: seq<Marker>)
    ensures Segment(items, -1, 0, |items|)
  {
  }

  /** Where the descendants of the first item of a segment end. */
  function SegmentEnd(items: seq<Marker>, lo: nat, hi: nat): (m: nat)
    requires lo < hi <= |items|
    ensures lo < m <= hi
  {
    lo + 1 + DeeperThan(items[lo + 1..hi], items[lo].indent)
  }

  lemma SegmentEndIs(items: seq<Marker>, lo: nat, hi: nat)
    requires lo < hi <= |items|
    ensures var m := SegmentEnd(items, lo, hi);
            && (forall j | lo < j < m :: items[j].indent > items[lo].indent)
            && (m < hi ==> items[m].indent <= items[lo].indent)
  {
    var inner := items[lo + 1..hi];
    DeeperThanSplits(inner, items[lo].indent);
    var m := SegmentEnd(items, lo, hi);
    forall j | lo < j < m ensures items[j].indent > items[lo].indent {
      assert items[j] == inner[j - lo - 1];
    }
    if m < hi {
      assert items[m] == inner[m - lo - 1];
    }
  }

  lemma ParentInside(items: seq<Marker>, lo: nat, j: nat)
    requires lo < j < |items| && items[lo].indent < items[j].indent
    ensures Parent(items, j) >= lo
  {
    NearestBelowIs(items, j - 1, items[j].indent);
  }

  lemma ParentNotBehind(items: seq<Marker>, lo: nat, m: nat, j: nat)
    requires lo < m <= j < |items| && items[m].indent <= items[lo].indent
    requires forall q | lo < q < m :: items[q].indent > items[lo].indent
    ensures Parent(items, j) < lo || Parent(items, j) >= m
  {
    NearestBelowIs(items, j - 1, items[j].indent);
  }

  /** The first item of a segment is a child of p; what follows splits into the segment of its
      own descendants and the rest of the segment of p. */
  lemma SegmentSplits(items: seq<Marker>, p: int, lo: nat, hi: nat)
    requires Segment(items, p, lo, hi) && lo < hi
    ensures var m := SegmentEnd(items, lo, hi);
            && Parent(items, lo) == p
            && Segment(items, lo, lo + 1, m)
            && Segment(items, p, m, hi)
            && KidsIn(items, p, lo, hi) == [lo] + KidsIn(items, p, m, hi)
            && Kids(items, lo) == KidsIn(items, lo, lo + 1, m)
  {
    hide Parent, KidsIn, SegmentEnd;
    var m := SegmentEnd(items, lo, hi);
    SegmentEndIs(items, lo, hi);
    forall j | lo < j < m ensures Parent(items, j) >= lo {
      ParentInside(items, lo, j);
    }
    assert m < |items| ==> items[m].indent <= items[lo].indent;
    forall j | m <= j < |items| ensures Parent(items, j) < lo || Parent(items, j) >= m {
      ParentNotBehind(items, lo, m, j);
    }
    KidsOfFirst(items, p, lo, m, hi);
    KidsOnlyInside(items, lo, m);
  }

  lemma KidsOfFirst(items: seq<Marker>, p: int, lo: nat, m: nat, hi: nat)
    requires p < lo < m <= hi <= |items| && Parent(items, lo) == p
    requires forall j | lo < j < m :: Parent(items, j) >= lo
    ensures KidsIn(items, p, lo, hi) == [lo] + KidsIn(items, p, m, hi)
  {
    hide KidsIn, Parent;
    KidsSplit(items, p, lo, m, hi);
    KidsSplit(items, p, lo, lo + 1, m);
    NoKids(items, p, lo + 1, m);
    OneKid(items, p, lo);
  }

  lemma OneKid(items: seq<Marker>, p: int, lo: nat)
    requires lo < |items| && Parent(items, lo) == p
    ensures KidsIn(items, p, lo, lo + 1) == [lo]
  {
    hide Parent;
    assert KidsIn(items, p, lo, lo) == [];
  }

  lemma KidsOnlyInside(items: seq<Marker>, lo: nat, m: nat)
    requires lo < m <= |items|
    requires forall j | m <= j < |items| :: Parent(items, j) < lo || Parent(items, j) >= m
    ensures Kids(items, lo) == KidsIn(items, lo, lo + 1, m)
  {
    hide KidsIn;
    KidsSplit(items, lo, 0, lo + 1, |items|);
    KidsSplit(items, lo, lo + 1, m, |items|);
    NoKids(items, lo, 0, lo + 1);
    NoKids(items, lo, m, |items|);
  }

  // ---- The forest as a whole ----

  function Size(block: Block): nat {
    1 + SizeAll(block.children)
  }

  function SizeAll(blocks: seq<Block>): nat {
    if blocks == [] then 0 else Size(blocks[0]) + SizeAll(blocks[1..])
  }

  /** The shapes of a forest, parents before children, in order. */
  function Preorder(blocks: seq<Block>): seq<Shape> {
    if blocks == [] then []
    else [blocks[0].shape] + Preorder(blocks[0].children) + Preorder(blocks[1..])
  }

  function Shapes(items: seq<Marker>): (r: seq<Shape>)
    ensures |r| == |items|
  {
    if items == [] then [] else [ItemShape(items[0])] + Shapes(items[1..])
  }

  lemma {:induction false} ShapesConcat(a: seq<Marker>, b: seq<Marker>)
    ensures Shapes(a + b) == Shapes(a) + Shapes(b)
  {
    hide ItemShape;
    if a == [] {
      assert a + b == b;
    } else {
      assert (a + b)[1..] == a[1..] + b;
      ShapesConcat(a[1..], b);
    }
  }

  lemma {:induction false} SizeConcat(a: seq<Block>, b: seq<Block>)
    ensures SizeAll(a + b) == SizeAll(a) + SizeAll(b)
  {
    hide Size;
    if a == [] {
      assert a + b == b;
    } else {
      assert (a + b)[1..] == a[1..] + b;
      SizeConcat(a[1..], b);
    }
  }

  lemma PreorderStep(first: Block, rest: seq<Block>)
    ensures Preorder([first] + rest) == [first.shape] + Preorder(first.children) + Preorder(rest)
  {
    assert ([first] + rest)[1..] == rest;
  }

  lemma ForestUnfolds(items: seq<Marker>)
    requires items != []
    ensures var n := DeeperThan(items[1..], items[0].indent);
            Forest(items) == [Block(ItemShape(items[0]), Forest(items[1..1 + n]))] + Forest(items[1 + n..])
  {
    hide ItemShape;
  }

  lemma ShapesStep(items: seq<Marker>)
    requires items != []
    ensures Shapes(items) == [ItemShape(items[0])] + Shapes(items[1..])
  {
    hide ItemShape;
  }

  lemma NothingToRead()
    ensures Preorder(Forest([])) == Shapes([])
  {
  }

  /** Reading the forest parents first gives the items in line order, each exactly once. */
  lemma {:induction false} ForestKeepsLineOrder(items: seq<Marker>)
    ensures Preorder(Forest(items)) == Shapes(items)
    decreases |items|
  {
    hide *;
    if items == [] {
      NothingToRead();
    } else {
      var n := DeeperThan(items[1..], items[0].indent);
      var mine, rest := items[1..1 + n], items[1 + n..];
      ForestKeepsLineOrder(mine);
      ForestKeepsLineOrder(rest);
      assert items[1..] == mine + rest;
      ShapesConcat(mine, rest);
      ShapesStep(items);
      ForestUnfolds(items);
      PreorderStep(Block(ItemShape(items[0]), Forest(mine)), Forest(rest));
    }
  }

  lemma {:induction false} ForestSize(items: seq<Marker>)
    ensures SizeAll(Forest(items)) == |items|
    decreases |items|
  {
    hide ItemShape;
    if items != [] {
      var n := DeeperThan(items[1..], items[0].indent);
      ForestSize(items[1..1 + n]);
      ForestSize(items[1 + n..]);
      var first := Block(ItemShape(items[0]), Forest(items[1..1 + n]));
      SizeConcat([first], Forest(items[1 + n..]));
      assert SizeAll([first]) == Size(first) + SizeAll([first][1..]);
    }
  }

  /** For a forest read parents first, the position of every block's parent. The forest starts at
      position `base` and hangs below position `p`. */
  function ParentPositions(blocks: seq<Block>, base: nat, p: int): seq<int> {
    if blocks == [] then []
    else
      [p] + ParentPositions(blocks[0].children, base + 1, base)
      + ParentPositions(blocks[1..], base + Size(blocks[0]), p)
  }

  function Parents(items: seq<Marker>, lo: nat, hi: nat): (r: seq<int>)
    requires lo <= hi <= |items|
    ensures |r| == hi - lo
  {
    seq(hi - lo, i requires 0 <= i < hi - lo => Parent(items, lo + i))
  }

  lemma ParentPositionsStep(first: Block, rest: seq<Block>, base: nat, p: int)
    ensures ParentPositions([first] + rest, base, p)
         == [p] + ParentPositions(first.children, base + 1, base) + ParentPositions(rest, base + Size(first), p)
  {
    hide Size;
    assert ([first] + rest)[1..] == rest;
  }

  lemma ParentsSplit(items: seq<Marker>, lo: nat, m: nat, hi: nat)
    requires lo < m <= hi <= |items|
    ensures Parents(items, lo, hi) == [Parent(items, lo)] + Parents(items, lo + 1, m) + Parents(items, m, hi)
  {
    hide Parent;
  }

  lemma SegmentUnfolds(items: seq<Marker>, lo: nat, hi: nat)
    requires lo < hi <= |items|
    ensures var m := SegmentEnd(items, lo, hi);
            Forest(items[lo..hi]) == [Block(ItemShape(items[lo]), Forest(items[lo + 1..m]))] + Forest(items[m..hi])
  {
    hide Forest, ItemShape;
    var run := items[lo..hi];
    var n := DeeperThan(run[1..], run[0].indent);
    ForestUnfolds(run);
    assert run[1..] == items[lo + 1..hi];
    SliceOfSlice(items, lo, hi, 1, 1 + n);
    SliceOfSlice(items, lo, hi, 1 + n, hi - lo);
  }

  lemma NoParents(items: seq<Marker>, lo: nat, p: int)
    requires lo <= |items|
    ensures ParentPositions(Forest(items[lo..lo]), lo, p) == Parents(items, lo, lo)
  {
  }

  lemma {:induction false} SegmentParents(items: seq<Marker>, p: int, lo: nat, hi: nat)
    requires lo <= hi <= |items| && Segment(items, p, lo, hi)
    ensures ParentPositions(Forest(items[lo..hi]), lo, p) == Parents(items, lo, hi)
    decreases hi - lo
  {
    hide *;
    if lo == hi {
      NoParents(items, lo, p);
    } else {
      SegmentEndBounds(items, lo, hi);
      var m := SegmentEnd(items, lo, hi);
      SegmentSplits(items, p, lo, hi);
      SegmentParents(items, lo, lo + 1, m);
      SegmentParents(items, p, m, hi);
      SegmentUnfolds(items, lo, hi);
      var first := Block(ItemShape(items[lo]), Forest(items[lo + 1..m]));
      SizeOfItem(items, lo, m);
      ParentPositionsStep(first, Forest(items[m..hi]), lo, p);
      ParentsSplit(items, lo, m, hi);
    }
  }

  lemma SegmentEndBounds(items: seq<Marker>, lo: nat, hi: nat)
    requires lo < hi <= |items|
    ensures lo < SegmentEnd(items, lo, hi) <= hi
  {
  }

  lemma SizeOfItem(items: seq<Marker>, lo: nat, m: nat)
    requires lo < m <= |items|
    ensures lo + Size(Block(ItemShape(items[lo]), Forest(items[lo + 1..m]))) == m
  {
    ForestSize(items[lo + 1..m]);
    hide ItemShape, Forest, SizeAll;
  }

  /** In the forest of any run of items with any indents, every item hangs below the nearest
      earlier item with a strictly smaller indent, and is a root if there is none. */
  lemma ForestParentsAreNearest(items: seq<Marker>)
    ensures ParentPositions(Forest(items), 0, -1) == Parents(items, 0, |items|)
  {
    hide Forest, ParentPositions, Parents;
    WholeIsSegment(items);
    SegmentParents(items, -1, 0, |items|);
    assert items[0..|items|] == items;
  }
}
