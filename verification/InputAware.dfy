/**
 * The partitioner from the edges of one destination interval to its four edge
 * files: sorting, cutting, dealing out and saving together lose no edge.
 */
module InputAware {
  import opened Partition
  import opened Greedy
  import opened Allocation
  import opened EdgeFile

  lemma EdgesOfLists(lists: seq<seq<Block>>, blocks: seq<Block>)
    requires |lists| == LISTS && AllBlocks(lists) == multiset(blocks)
    ensures Edges(lists[0]) + Edges(lists[1]) + Edges(lists[2]) + Edges(lists[3]) == Edges(blocks)
  {
    var all := lists[0] + lists[1] + lists[2] + lists[3];
    EdgesOfMultiset(all, blocks);
    EdgesConcat(lists[0] + lists[1] + lists[2], lists[3]);
    EdgesConcat(lists[0] + lists[1], lists[2]);
    EdgesConcat(lists[0], lists[1]);
  }

  lemma {:induction false} SizeIsEdges(blocks: seq<Block>)
    ensures |Edges(blocks)| == Size(blocks)
  {
    if blocks != [] { SizeIsEdges(blocks[..|blocks| - 1]); }
  }

  // Four lists of the same blocks, none with more than bound edges.
  ghost predicate SpreadsWithin(lists: seq<seq<Block>>, blocks: seq<Block>, bound: nat) {
    |lists| == LISTS && AllBlocks(lists) == multiset(blocks) && forall m :: 0 <= m < LISTS ==> Size(lists[m]) <= bound
  }

  // What the cut leaves of some edges: they are sorted, and of the blocks of
  // the source groups in descending order the first k are split in four.
  ghost predicate CutOf(edges: seq<Edge>, alpha: real, sorted: seq<Edge>, whole: seq<Block>, order: seq<nat>, k: nat, blocks: seq<Block>) {
    && BySource(sorted) && multiset(sorted) == multiset(edges)
    && SourceBlocks(whole, sorted) && Ordered(whole, order) && |order| == |whole|
    && k as real - 1.0 < |whole| as real * alpha <= k as real && k <= |order|
    && blocks == Split(whole, order, k)
  }

  // Dealt out one by one in descending order, each to the first of the lists
  // that have the fewest edges so far.
  ghost predicate DealtOut(blocks: seq<Block>, descending: seq<Block>, a: seq<nat>, lists: seq<seq<Block>>) {
    && multiset(descending) == multiset(blocks) && Descending(Sizes(descending)) && IsGreedy(Sizes(descending), a)
    && |lists| == LISTS && forall l :: 0 <= l < LISTS ==> lists[l] == Picked(descending, a, |descending|, l)
  }

  // One interval, for one value of alpha. The blocks of its source groups are
  // split as alpha says and dealt out to four lists of which none has more than
  // 5/4 of the edges that the fullest list must have, however they are spread.
  // Each list makes one well-formed file; the files together hold each edge once.
  method PartitionInterval(edges: seq<Edge>, alpha: real)
    returns (files: seq<seq<Edge>>, ghost ns: seq<nat>, ghost blocks: seq<Block>, ghost lists: seq<seq<Block>>,
             ghost sorted: seq<Edge>, ghost whole: seq<Block>, ghost order: seq<nat>, ghost k: nat,
             ghost descending: seq<Block>, ghost a: seq<nat>)
    requires forall k :: 0 <= k < |edges| ==> edges[k].src >= 0
    requires 0.0 <= alpha <= 1.0
    ensures CutOf(edges, alpha, sorted, whole, order, k, blocks)
    ensures Edges(blocks) == multiset(edges) && forall i :: 0 <= i < |blocks| ==> OneGroup(blocks[i])
    ensures DealtOut(blocks, descending, a, lists) && AllBlocks(lists) == multiset(blocks)
    ensures |files| == |ns| == LISTS
    ensures forall l :: 0 <= l < LISTS ==> IsEdgeFile(files[l], ns[l]) && |files[l]| - 1 == ns[l] + 32 - ns[l] % 16
    ensures forall l :: 0 <= l < LISTS ==> multiset(Records(files[l], ns[l])) == Edges(lists[l])
    ensures multiset(Records(files[0], ns[0])) + multiset(Records(files[1], ns[1]))
            + multiset(Records(files[2], ns[2])) + multiset(Records(files[3], ns[3])) == multiset(edges)
    ensures forall other: seq<seq<Block>>, opt: nat :: SpreadsWithin(other, blocks, opt) ==> forall l :: 0 <= l < LISTS ==> 4 * ns[l] <= 5 * opt
  {
    var byId := SortBySource(edges);
    assert forall k :: 0 <= k < |byId| ==> byId[k].src >= 0 by { NonNegative(edges, byId); }
    sorted := byId;
    var cut;
    cut, whole, order, k := ProcessBlocks(byId, alpha);
    blocks := cut;
    var dealt;
    dealt, descending, a := AllocateBlocksToLists(cut);
    lists := dealt;
    EdgesOfLists(dealt, cut);
    files, ns := SaveAll(dealt);
    forall other: seq<seq<Block>>, opt: nat | SpreadsWithin(other, blocks, opt) ensures forall l :: 0 <= l < LISTS ==> 4 * ns[l] <= 5 * opt {
      forall l | 0 <= l < LISTS ensures 4 * ns[l] <= 5 * opt { AllocationWithin5Over4(descending, a, dealt, other, opt, l); }
    }
  }

  lemma NonNegative(edges: seq<Edge>, sorted: seq<Edge>)
    requires multiset(sorted) == multiset(edges) && forall k :: 0 <= k < |edges| ==> edges[k].src >= 0
    ensures forall k :: 0 <= k < |sorted| ==> sorted[k].src >= 0
  {
    forall k | 0 <= k < |sorted| ensures sorted[k].src >= 0 {
      assert sorted[k] in multiset(sorted);
    }
  }

  // A list as its file.
  ghost predicate SavedAs(file: seq<Edge>, n: nat, list: seq<Block>) {
    && IsEdgeFile(file, n) && |file| - 1 == n + 32 - n % 16
    && multiset(Records(file, n)) == Edges(list) && n == Size(list)
  }

  method SaveOne(list: seq<Block>) returns (file: seq<Edge>, ghost n: nat)
    ensures SavedAs(file, n, list)
  {
    file, n := SaveFile(list);
    SizeIsEdges(list);
    assert |multiset(file[1..n + 1])| == n;
  }

  method SaveAll(lists: seq<seq<Block>>) returns (files: seq<seq<Edge>>, ghost ns: seq<nat>)
    requires |lists| == LISTS
    ensures |files| == |ns| == LISTS && forall l :: 0 <= l < LISTS ==> SavedAs(files[l], ns[l], lists[l])
  {
    hide SavedAs;
    files, ns := [], [];
    var i := 0;
    while i < LISTS
      invariant 0 <= i <= LISTS && |files| == |ns| == i
      invariant forall l :: 0 <= l < i ==> SavedAs(files[l], ns[l], lists[l])
    {
      var file, n := SaveOne(lists[i]);
      files, ns := files + [file], ns + [n];
      i := i + 1;
    }
  }
}
