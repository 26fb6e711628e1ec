/** The renderer as it runs: loops that push lines and chunks. */
module DocumentRenderer {
  import opened Text
  import opened DocumentTypes
  import opened BlockRenderer

  lemma ItemsStep(blocks: seq<Block>, i: nat, depth: nat, orderedIndex: nat)
    requires i < |blocks|
    ensures RenderItemsFrom(blocks[i..], depth, orderedIndex)
         == [ItemLine(blocks[i].shape, depth, orderedIndex)]
            + RenderItemsFrom(blocks[i].children, depth + 1, 1)
            + RenderItemsFrom(blocks[i + 1..], depth, NextIndex(blocks[i].shape, orderedIndex))
  {
    hide ItemLine, NextIndex;
    assert blocks[i..][1..] == blocks[i + 1..];
  }

  lemma ItemsEnd(blocks: seq<Block>, depth: nat, orderedIndex: nat)
    ensures RenderItemsFrom(blocks[|blocks|..], depth, orderedIndex) == []
    ensures RenderItemsFrom([], depth, orderedIndex) == []
  {
  }

  method RenderListItems(blocks: seq<Block>, depth: nat) returns (lines: seq<string>)
    ensures lines == RenderItemsFrom(blocks, depth, 1)
    decreases blocks
  {
    hide RenderItemsFrom, ItemLine;
    lines := [];
    var orderedIndex := 1;
    assert blocks[0..] == blocks;
    for i := 0 to |blocks|
      invariant lines + RenderItemsFrom(blocks[i..], depth, orderedIndex) == RenderItemsFrom(blocks, depth, 1)
    {
      var block := blocks[i];
      ItemsStep(blocks, i, depth, orderedIndex);
      ItemsEnd(block.children, depth + 1, 1);
      ghost var before, after := lines, RenderItemsFrom(blocks[i + 1..], depth, NextIndex(block.shape, orderedIndex));
      lines := lines + [ItemLine(block.shape, depth, orderedIndex)];
      if block.shape.NumberedItem? {
        orderedIndex := orderedIndex + 1;
      }
      var inner := [];
      if |block.children| > 0 {
        inner := RenderListItems(block.children, depth + 1);
      }
      assert lines == before + [lines[|before|]];
      Regroup(before, [lines[|before|]], inner, after);
      lines := lines + inner;
    }
    ItemsEnd(blocks, depth, orderedIndex);
  }

  method CollectConsecutiveListItems(blocks: seq<Block>, start: nat) returns (list: seq<Block>, next: nat)
    requires start < |blocks|
    ensures next == start + KindRun(blocks[start..], blocks[start].shape) && list == blocks[start..next]
  {
    var shape := blocks[start].shape;
    list := [];
    next := start;
    while next < |blocks| && SameKind(blocks[next].shape, shape)
      invariant start <= next <= |blocks| && list == blocks[start..next]
      invariant KindRun(blocks[start..], shape) == (next - start) + KindRun(blocks[next..], shape)
    {
      SuffixOfSuffix(blocks, next, 1);
      list := list + [blocks[next]];
      next := next + 1;
    }
  }

  /** The items that share a chunk are all of one kind, and the block behind them is of another. */
  lemma {:induction false} ListRunIsMaximal(blocks: seq<Block>, shape: Shape)
    requires shape.IsListItem()
    ensures var n := KindRun(blocks, shape);
            && (forall k | 0 <= k < n :: blocks[k].shape.BulletItem? == shape.BulletItem?
                                         && blocks[k].shape.CheckItem? == shape.CheckItem?
                                         && blocks[k].shape.NumberedItem? == shape.NumberedItem?)
            && (n < |blocks| ==>
                  || blocks[n].shape.BulletItem? != shape.BulletItem?
                  || blocks[n].shape.CheckItem? != shape.CheckItem?
                  || blocks[n].shape.NumberedItem? != shape.NumberedItem?)
  {
    if blocks != [] && SameKind(blocks[0].shape, shape) {
      ListRunIsMaximal(blocks[1..], shape);
      var n := KindRun(blocks[1..], shape);
      assert forall k | 1 <= k < n + 1 :: blocks[k] == blocks[1..][k - 1];
    }
  }

  lemma ChunksStep(blocks: seq<Block>, i: nat)
    requires i < |blocks|
    ensures blocks[i].shape.IsListItem() ==>
              var n := KindRun(blocks[i..], blocks[i].shape);
              && 1 <= n && i + n <= |blocks|
              && Chunks(blocks[i..])
                 == [Join(RenderItemsFrom(blocks[i..i + n], 0, 1), "\n")] + Chunks(blocks[i + n..])
    ensures !blocks[i].shape.IsListItem() ==>
              Chunks(blocks[i..]) == [RenderBlock(blocks[i])] + Chunks(blocks[i + 1..])
  {
    hide RenderBlock, RenderItemsFrom, Join;
    var rest := blocks[i..];
    SuffixOfSuffix(blocks, i, 1);
    if blocks[i].shape.IsListItem() {
      var n := KindRun(rest, blocks[i].shape);
      assert rest[..n] == blocks[i..i + n];
      SuffixOfSuffix(blocks, i, n);
    }
  }

  lemma ChunksEnd(blocks: seq<Block>)
    ensures Chunks(blocks[|blocks|..]) == []
  {
  }

  method RenderDocument(blocks: seq<Block>) returns (markdown: string)
    ensures markdown == Render(blocks)
  {
    hide RenderBlock, RenderItemsFrom, Join, Chunks, KindRun, TrimEnd, NonBlank;
    var chunks: seq<string> := [];
    var index := 0;
    assert blocks[0..] == blocks && [] + Chunks(blocks) == Chunks(blocks);
    while index < |blocks|
      invariant index <= |blocks|
      invariant chunks + Chunks(blocks[index..]) == Chunks(blocks)
    {
      ChunksStep(blocks, index);
      ghost var before := chunks;
      if blocks[index].shape.IsListItem() {
        var list, next := CollectConsecutiveListItems(blocks, index);
        var lines := RenderListItems(list, 0);
        chunks := chunks + [Join(lines, "\n")];
        assert before + ([Join(lines, "\n")] + Chunks(blocks[next..])) == chunks + Chunks(blocks[next..]);
        index := next;
        continue;
      }
      chunks := chunks + [RenderBlock(blocks[index])];
      assert before + ([RenderBlock(blocks[index])] + Chunks(blocks[index + 1..]))
          == chunks + Chunks(blocks[index + 1..]);
      index := index + 1;
    }
    ChunksEnd(blocks);
    assert chunks + [] == chunks;
    markdown := TrimEnd(Join(NonBlank(chunks), "\n\n"));
  }
}
