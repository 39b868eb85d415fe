/**
 * The input-aware partitioner: edges of one destination interval are cut into
 * blocks by source vertex and some blocks split in four (`processBlocks`), the
 * blocks are dealt out to four lists (`allocateBlocksToLists`), and each list
 * is written as a padded edge file (`saveFile`).
 */
module Partition {
  import opened Greedy
  import opened Sorting

  datatype Edge = Edge(src: int, dst: int)

  type Block = seq<Edge>

  const BLOCK_SIZE := 512
  const NUM_SLRS := 4
  const DUMMY := -2

  // All edges of some blocks.
  function Edges(blocks: seq<Block>): (m: multiset<Edge>) {
    if blocks == [] then multiset{} else Edges(blocks[..|blocks| - 1]) + multiset(blocks[|blocks| - 1])
  }

  function Size(blocks: seq<Block>): nat {
    if blocks == [] then 0 else Size(blocks[..|blocks| - 1]) + |blocks[|blocks| - 1]|
  }

  lemma EdgesSnoc(blocks: seq<Block>, b: Block)
    ensures Edges(blocks + [b]) == Edges(blocks) + multiset(b)
    ensures Size(blocks + [b]) == Size(blocks) + |b|
  {
    assert (blocks + [b])[..|blocks|] == blocks;
  }

  lemma {:induction false} EdgesConcat(a: seq<Block>, b: seq<Block>)
    ensures Edges(a + b) == Edges(a) + Edges(b)
    ensures Size(a + b) == Size(a) + Size(b)
  {
    if b == [] {
      assert a + b == a;
    } else {
      var n := |b| - 1;
      EdgesConcat(a, b[..n]);
      EdgesSnoc(a + b[..n], b[n]);
      assert a + b == (a + b[..n]) + [b[n]];
    }
  }

  lemma EdgesPush(blocks: seq<Block>, i: nat, edge: Edge)
    requires i < |blocks|
    ensures Edges(blocks[i := blocks[i] + [edge]]) == Edges(blocks) + multiset{edge}
  {
    var b := blocks[i] + [edge];
    EdgesSplit(blocks, i);
    EdgesSplit(blocks[i := b], i);
    assert blocks[i := b][..i] == blocks[..i] && blocks[i := b][i + 1..] == blocks[i + 1..];
  }

  lemma EdgesSplit(blocks: seq<Block>, i: nat)
    requires i < |blocks|
    ensures Edges(blocks) == Edges(blocks[..i]) + multiset(blocks[i]) + Edges(blocks[i + 1..])
    ensures Size(blocks) == Size(blocks[..i]) + |blocks[i]| + Size(blocks[i + 1..])
  {
    assert blocks == (blocks[..i] + [blocks[i]]) + blocks[i + 1..];
    EdgesConcat(blocks[..i] + [blocks[i]], blocks[i + 1..]);
    EdgesSnoc(blocks[..i], blocks[i]);
  }

  // The same blocks in another order have the same edges.
  lemma {:induction false} EdgesOfMultiset(a: seq<Block>, b: seq<Block>)
    requires multiset(a) == multiset(b)
    ensures Edges(a) == Edges(b) && Size(a) == Size(b)
    decreases |a|
  {
    if a == [] {
      assert |multiset(b)| == 0;
    } else {
      var n := |a| - 1;
      assert a[n] in multiset(a);
      var i := PlaceOf(b, a[n]);
      var rest := b[..i] + b[i + 1..];
      WithoutOne(a, b, i);
      EdgesOfMultiset(a[..n], rest);
      EdgesConcat(b[..i], b[i + 1..]);
      EdgesSplit(b, i);
    }
  }

  lemma PlaceOf(b: seq<Block>, x: Block) returns (i: nat)
    requires x in multiset(b)
    ensures i < |b| && b[i] == x
  {
    i :| 0 <= i < |b| && b[i] == x;
  }

  // ---------------------------------------------------------------------
  // Cutting into blocks.
  // ---------------------------------------------------------------------

  // The edges whose source is in group g, in order.
  function InGroup(edges: seq<Edge>, g: int): Block {
    if edges == [] then []
    else
      var n := |edges| - 1;
      InGroup(edges[..n], g) + (if edges[n].src / 512 == g then [edges[n]] else [])
  }

  lemma {:induction false} InGroupIsGroup(edges: seq<Edge>, g: int)
    ensures forall k :: 0 <= k < |InGroup(edges, g)| ==> InGroup(edges, g)[k].src / 512 == g
  {
    if edges != [] { InGroupIsGroup(edges[..|edges| - 1], g); }
  }

  lemma InGroupSnoc(edges: seq<Edge>, e: Edge, g: int)
    ensures InGroup(edges + [e], g) == InGroup(edges, g) + (if e.src / 512 == g then [e] else [])
  {
    assert (edges + [e])[..|edges|] == edges;
  }

  // Block g holds the edges of group g, and there is a block for every edge.
  ghost predicate Grouped(blocks: seq<Block>, edges: seq<Edge>) {
    && (forall g :: 0 <= g < |blocks| ==> blocks[g] == InGroup(edges, g))
    && (forall k :: 0 <= k < |edges| ==> 0 <= edges[k].src / 512 < |blocks|)
  }

  // A block whose edges all lie in one source group.
  ghost predicate OneGroup(b: Block) {
    forall j, k :: 0 <= j < |b| && 0 <= k < |b| ==> b[j].src / 512 == b[k].src / 512
  }

  // A group beyond the blocks has no edges.
  lemma {:induction false} NothingBeyond(edges: seq<Edge>, g: int)
    requires forall k :: 0 <= k < |edges| ==> edges[k].src / 512 < g
    ensures InGroup(edges, g) == []
  {
    if edges != [] { NothingBeyond(edges[..|edges| - 1], g); }
  }

  lemma GroupedEmpty(blocks: seq<Block>, edges: seq<Edge>)
    requires Grouped(blocks, edges)
    ensures Grouped(blocks + [[]], edges)
  {
    NothingBeyond(edges, |blocks|);
  }

  method Resize(blocks: seq<Block>, n: nat, ghost edges: seq<Edge>) returns (r: seq<Block>)
    requires |blocks| <= n && Grouped(blocks, edges)
    ensures |r| == n && Grouped(r, edges) && Edges(r) == Edges(blocks)
  {
    hide Grouped, InGroup;
    r := blocks;
    while |r| < n
      invariant |r| <= n && Grouped(r, edges) && Edges(r) == Edges(blocks)
    {
      EdgesSnoc(r, []);
      GroupedEmpty(r, edges);
      r := r + [[]];
    }
  }

  lemma GroupedPush(blocks: seq<Block>, edges: seq<Edge>, edge: Edge, index: nat)
    requires Grouped(blocks, edges) && index == edge.src / 512 && index < |blocks|
    ensures Grouped(blocks[index := blocks[index] + [edge]], edges + [edge])
  {
    hide InGroup;
    forall g | 0 <= g < |blocks| ensures InGroup(edges + [edge], g) == blocks[index := blocks[index] + [edge]][g] {
      InGroupSnoc(edges, edge, g);
    }
  }

  method PushBack(blocks: seq<Block>, edge: Edge, ghost edges: seq<Edge>) returns (r: seq<Block>)
    requires Grouped(blocks, edges) && edge.src >= 0
    ensures Grouped(r, edges + [edge]) && Edges(r) == Edges(blocks) + multiset{edge}
  {
    hide Grouped, InGroup;
    var index := edge.src / BLOCK_SIZE;
    r := blocks;
    if |r| <= index { r := Resize(r, index + 1, edges); }
    EdgesPush(r, index, edge);
    GroupedPush(r, edges, edge, index);
    r := r[index := r[index] + [edge]];
  }

  method CutBySource(sortedEdges: seq<Edge>) returns (blocks: seq<Block>)
    requires forall k :: 0 <= k < |sortedEdges| ==> sortedEdges[k].src >= 0
    ensures Grouped(blocks, sortedEdges) && Edges(blocks) == multiset(sortedEdges)
  {
    hide *;
    blocks := [];
    var k := 0;
    NoBlocks();
    assert sortedEdges[..0] == [];
    while k < |sortedEdges|
      invariant 0 <= k <= |sortedEdges|
      invariant Grouped(blocks, sortedEdges[..k]) && Edges(blocks) == multiset(sortedEdges[..k])
    {
      assert sortedEdges[..k + 1] == sortedEdges[..k] + [sortedEdges[k]];
      blocks := PushBack(blocks, sortedEdges[k], sortedEdges[..k]);
      k := k + 1;
    }
    assert sortedEdges[..k] == sortedEdges;
  }

  lemma NoBlocks()
    ensures Grouped([], []) && Edges([]) == multiset{}
  {
  }

  function Group(b: Block): int
    requires b != []
  {
    b[0].src / 512
  }

  ghost predicate HasBlock(blocks: seq<Block>, g: int) {
    exists i :: 0 <= i < |blocks| && blocks[i] != [] && Group(blocks[i]) == g
  }

  // One block for every source group that has edges, in ascending order, with
  // all edges of the group.
  ghost predicate SourceBlocks(whole: seq<Block>, edges: seq<Edge>) {
    && (forall i :: 0 <= i < |whole| ==> whole[i] != [] && whole[i] == InGroup(edges, Group(whole[i])))
    && (forall i, j :: 0 <= i < j < |whole| ==> Group(whole[i]) < Group(whole[j]))
    && (forall k :: 0 <= k < |edges| ==> HasBlock(whole, edges[k].src / 512))
  }

  // The non-empty ones of the first k blocks.
  ghost predicate Kept(r: seq<Block>, blocks: seq<Block>, k: nat, edges: seq<Edge>) {
    && k <= |blocks|
    && (forall i :: 0 <= i < |r| ==> r[i] != [] && Group(r[i]) < k && r[i] == InGroup(edges, Group(r[i])))
    && (forall i, j :: 0 <= i < j < |r| ==> Group(r[i]) < Group(r[j]))
    && (forall g :: 0 <= g < k && blocks[g] != [] ==> HasBlock(r, g))
  }

  lemma KeptNext(r: seq<Block>, blocks: seq<Block>, k: nat, edges: seq<Edge>)
    requires Kept(r, blocks, k, edges) && k < |blocks| && Grouped(blocks, edges)
    ensures Kept(if blocks[k] == [] then r else r + [blocks[k]], blocks, k + 1, edges)
  {
    InGroupIsGroup(edges, k);
    var r' := if blocks[k] == [] then r else r + [blocks[k]];
    forall g | 0 <= g < k + 1 && blocks[g] != [] ensures HasBlock(r', g) {
      if g == k {
        assert Group(r'[|r|]) == g;
      } else {
        var i :| 0 <= i < |r| && Group(r[i]) == g;
        assert r'[i] == r[i];
      }
    }
  }

  // An edge's group is not empty.
  lemma {:induction false} GroupHolds(edges: seq<Edge>, k: nat)
    requires k < |edges|
    ensures InGroup(edges, edges[k].src / 512) != []
  {
    if k < |edges| - 1 { GroupHolds(edges[..|edges| - 1], k); }
  }

  lemma KeptAll(r: seq<Block>, blocks: seq<Block>, edges: seq<Edge>)
    requires Kept(r, blocks, |blocks|, edges) && Grouped(blocks, edges)
    ensures SourceBlocks(r, edges)
  {
    forall k | 0 <= k < |edges| ensures HasBlock(r, edges[k].src / 512) {
      GroupHolds(edges, k);
    }
  }

  method EraseEmpty(blocks: seq<Block>, ghost edges: seq<Edge>) returns (r: seq<Block>)
    requires Grouped(blocks, edges)
    ensures Edges(r) == Edges(blocks) && SourceBlocks(r, edges)
  {
    r := [];
    var k := 0;
    while k < |blocks|
      invariant 0 <= k <= |blocks| && Edges(r) == Edges(blocks[..k]) && Kept(r, blocks, k, edges)
    {
      assert blocks[..k + 1] == blocks[..k] + [blocks[k]];
      EdgesSnoc(blocks[..k], blocks[k]);
      EdgesSnoc(r, blocks[k]);
      KeptNext(r, blocks, k, edges);
      if blocks[k] != [] { r := r + [blocks[k]]; }
      k := k + 1;
    }
    assert blocks[..k] == blocks;
    KeptAll(r, blocks, edges);
  }

  // ---------------------------------------------------------------------
  // Splitting.
  // ---------------------------------------------------------------------

  // Where part j of a block of n edges starts when it is cut in four.
  function Cut(n: nat, j: nat): (start: nat)
    requires j <= NUM_SLRS
    ensures start <= n && (j == NUM_SLRS ==> start == n)
  {
    assert n == 4 * (n / 4) + n % 4;
    j * (n / NUM_SLRS) + (if j < n % NUM_SLRS then j else n % NUM_SLRS)
  }

  function Part(block: Block, j: nat): (part: Block)
    requires j < NUM_SLRS
    ensures |part| == |block| / 4 + if j < |block| % 4 then 1 else 0
    ensures OneGroup(block) ==> OneGroup(part)
  {
    block[Cut(|block|, j)..Cut(|block|, j + 1)]
  }

  lemma EdgesOfFour(a: Block, b: Block, c: Block, d: Block)
    ensures Edges([a, b, c, d]) == multiset(a + b + c + d)
  {
    EdgesSnoc([], a);
    EdgesSnoc([a], b);
    EdgesSnoc([a, b], c);
    EdgesSnoc([a, b, c], d);
    assert [] + [a] == [a] && [a] + [b] == [a, b] && [a, b] + [c] == [a, b, c] && [a, b, c] + [d] == [a, b, c, d];
  }

  function Parts(block: Block): (parts: seq<Block>)
    ensures |parts| == NUM_SLRS
  {
    [Part(block, 0), Part(block, 1), Part(block, 2), Part(block, 3)]
  }

  // Four parts, in order and nearly equal, that make up the block.
  lemma PartsMakeBlock(block: Block)
    ensures Part(block, 0) + Part(block, 1) + Part(block, 2) + Part(block, 3) == block
    ensures Edges(Parts(block)) == multiset(block)
  {
    var n := |block|;
    assert Part(block, 0) + Part(block, 1) + Part(block, 2) + Part(block, 3) == block by {
      assert block == block[..Cut(n, 1)] + block[Cut(n, 1)..];
      assert block[..Cut(n, 2)] == block[..Cut(n, 1)] + block[Cut(n, 1)..Cut(n, 2)];
      assert block[..Cut(n, 3)] == block[..Cut(n, 2)] + block[Cut(n, 2)..Cut(n, 3)];
    }
    EdgesOfFour(Part(block, 0), Part(block, 1), Part(block, 2), Part(block, 3));
  }

  method SplitBlock(block: Block) returns (parts: seq<Block>)
    ensures parts == Parts(block)
  {
    var splitSize, remainder := |block| / NUM_SLRS, |block| % NUM_SLRS;
    parts := [];
    var j := 0;
    while j < NUM_SLRS
      invariant 0 <= j <= NUM_SLRS && |parts| == j
      invariant forall k :: 0 <= k < j ==> parts[k] == Part(block, k)
    {
      var startIdx := j * splitSize + (if j < remainder then j else remainder);
      var endIdx := startIdx + splitSize + (if j < remainder then 1 else 0);
      assert endIdx == Cut(|block|, j + 1);
      parts := parts + [block[startIdx..endIdx]];
      j := j + 1;
    }
  }

  // Larger block first; of two equal ones, the one with the larger index.
  predicate Before(blocks: seq<Block>, i: nat, j: nat)
    requires i < |blocks| && j < |blocks|
  {
    |blocks[i]| > |blocks[j]| || (|blocks[i]| == |blocks[j]| && i > j)
  }

  ghost predicate Ordered(blocks: seq<Block>, order: seq<nat>) {
    && (forall k :: 0 <= k < |order| ==> order[k] < |blocks|)
    && (forall j, k :: 0 <= j < k < |order| ==> Before(blocks, order[j], order[k]))
  }

  // The indices of the blocks, sorted by size and index, both descending.
  method SortBySize(blocks: seq<Block>) returns (order: seq<nat>)
    ensures Ordered(blocks, order) && |order| == |blocks|
  {
    order := [];
    var i := 0;
    while i < |blocks|
      invariant 0 <= i <= |blocks| && |order| == i
      invariant Ordered(blocks, order) && forall k :: 0 <= k < i ==> order[k] < i
    {
      var at := 0;
      while at < |order| && Before(blocks, order[at], i)
        invariant 0 <= at <= |order|
        invariant forall k :: 0 <= k < at ==> Before(blocks, order[k], i)
      {
        at := at + 1;
      }
      order := order[..at] + [i] + order[at..];
      i := i + 1;
    }
  }

  // Each of the chosen blocks is taken out of its place and its parts go to
  // the end.
  function Replaced(blocks: seq<Block>, q: nat): seq<Block>
    requires q < |blocks|
  {
    blocks[..q] + blocks[q + 1..] + Parts(blocks[q])
  }

  lemma ReplacedKeepsEdges(blocks: seq<Block>, q: nat)
    requires q < |blocks|
    ensures Edges(Replaced(blocks, q)) == Edges(blocks)
  {
    EdgesSplit(blocks, q);
    EdgesConcat(blocks[..q], blocks[q + 1..]);
    EdgesConcat(blocks[..q] + blocks[q + 1..], Parts(blocks[q]));
    PartsMakeBlock(blocks[q]);
  }

  lemma ReplacedKeepsGroups(blocks: seq<Block>, q: nat)
    requires q < |blocks| && forall i :: 0 <= i < |blocks| ==> OneGroup(blocks[i])
    ensures forall i :: 0 <= i < |Replaced(blocks, q)| ==> OneGroup(Replaced(blocks, q)[i])
  {
  }

  // ceil(n * alpha) over the reals.
  function SplitCount(n: nat, alpha: real): (k: nat)
    requires 0.0 <= alpha <= 1.0
    ensures k <= n && k as real - 1.0 < n as real * alpha <= k as real
  {
    var x := n as real * alpha;
    assert 0.0 <= x <= n as real;
    -(-x).Floor
  }

  // The blocks after the first k removals.
  function Split(blocks: seq<Block>, q: seq<nat>, k: nat): (r: seq<Block>)
    requires k <= |q| && forall i :: 0 <= i < |q| ==> q[i] < |blocks|
    ensures |r| == |blocks| + 3 * k
  {
    if k == 0 then blocks else Replaced(Split(blocks, q, k - 1), q[k - 1])
  }

  lemma {:induction false} SplitKeepsEdges(blocks: seq<Block>, q: seq<nat>, k: nat)
    requires k <= |q| && forall i :: 0 <= i < |q| ==> q[i] < |blocks|
    requires forall i :: 0 <= i < |blocks| ==> OneGroup(blocks[i])
    ensures Edges(Split(blocks, q, k)) == Edges(blocks)
    ensures forall i :: 0 <= i < |Split(blocks, q, k)| ==> OneGroup(Split(blocks, q, k)[i])
  {
    if k > 0 {
      SplitKeepsEdges(blocks, q, k - 1);
      ReplacedKeepsEdges(Split(blocks, q, k - 1), q[k - 1]);
      ReplacedKeepsGroups(Split(blocks, q, k - 1), q[k - 1]);
    }
  }

  // The whole cut: the blocks of the source groups, the first k of them in
  // descending order split by their old indices, where k is their number times
  // alpha, rounded up. No edge is lost or made up, and every block stays within
  // one source group.
  method ProcessBlocks(sortedEdges: seq<Edge>, alpha: real)
    returns (blocks: seq<Block>, ghost whole: seq<Block>, ghost order: seq<nat>, ghost k: nat)
    requires forall k :: 0 <= k < |sortedEdges| ==> sortedEdges[k].src >= 0
    requires 0.0 <= alpha <= 1.0
    ensures SourceBlocks(whole, sortedEdges) && Edges(whole) == multiset(sortedEdges)
    ensures Ordered(whole, order) && |order| == |whole|
    ensures k as real - 1.0 < |whole| as real * alpha <= k as real && k <= |order|
    ensures blocks == Split(whole, order, k)
    ensures Edges(blocks) == multiset(sortedEdges)
    ensures forall i :: 0 <= i < |blocks| ==> OneGroup(blocks[i])
  {
    blocks := CutBySource(sortedEdges);
    blocks := EraseEmpty(blocks, sortedEdges);
    var blockSizes := SortBySize(blocks);
    var numBlocksToSplit := SplitCount(|blockSizes|, alpha);
    whole, order, k := blocks, blockSizes, numBlocksToSplit;
    blocks := SplitAll(blocks, blockSizes, numBlocksToSplit);
    SourceBlocksAreGroups(whole, sortedEdges);
    SplitKeepsEdges(whole, order, numBlocksToSplit);
  }

  lemma SourceBlocksAreGroups(whole: seq<Block>, edges: seq<Edge>)
    requires SourceBlocks(whole, edges)
    ensures forall i :: 0 <= i < |whole| ==> OneGroup(whole[i])
  {
    forall i | 0 <= i < |whole| ensures OneGroup(whole[i]) { InGroupIsGroup(edges, Group(whole[i])); }
  }

  method SplitAll(whole: seq<Block>, blockSizes: seq<nat>, numBlocksToSplit: nat) returns (blocks: seq<Block>)
    requires numBlocksToSplit <= |blockSizes| && forall i :: 0 <= i < |blockSizes| ==> blockSizes[i] < |whole|
    ensures blocks == Split(whole, blockSizes, numBlocksToSplit)
  {
    blocks := whole;
    var i := 0;
    while i < numBlocksToSplit
      invariant 0 <= i <= numBlocksToSplit && blocks == Split(whole, blockSizes, i)
    {
      var q := blockSizes[i];
      var newSmallerBlocks := SplitBlock(blocks[q]);
      blocks := blocks[..q] + blocks[q + 1..];
      blocks := blocks + newSmallerBlocks;
      i := i + 1;
    }
  }

  // ---------------------------------------------------------------------
  // Which blocks the splitting hits. Every removal moves the later blocks one
  // place down, but the indices to split were taken before.
  // ---------------------------------------------------------------------

  // What stands where after the first k removals: the original place of each
  // remaining block, or -1 for a part.
  function Places(n: nat, q: seq<nat>, k: nat): (t: seq<int>)
    requires k <= |q| && forall i :: 0 <= i < |q| ==> q[i] < n
    ensures |t| == n + 3 * k
  {
    if k == 0 then seq(n, i => i)
    else
      var t := Places(n, q, k - 1);
      t[..q[k - 1]] + t[q[k - 1] + 1..] + [-1, -1, -1, -1]
  }

  // The first k removals take the blocks that were meant.
  ghost predicate HitsTargets(n: nat, q: seq<nat>, k: nat)
    requires k <= |q| && forall i :: 0 <= i < |q| ==> q[i] < n
  {
    forall i :: 0 <= i < k ==> Places(n, q, i)[q[i]] == q[i]
  }

  ghost predicate Falling(q: seq<nat>, k: nat)
    requires k <= |q|
  {
    forall i, j :: 0 <= i < j < k ==> q[i] > q[j]
  }

  // While the indices fall, nothing below the last of them has moved, and
  // everything from there on has.
  lemma {:induction false} PlacesWhenFalling(n: nat, q: seq<nat>, k: nat)
    requires 0 < k <= |q| && Falling(q, k) && forall i :: 0 <= i < |q| ==> q[i] < n
    ensures forall x :: 0 <= x < q[k - 1] ==> Places(n, q, k)[x] == x
    ensures forall x :: q[k - 1] <= x < n + 3 * k ==> Places(n, q, k)[x] == -1 || Places(n, q, k)[x] > x
  {
    var t := Places(n, q, k - 1);
    if k > 1 { PlacesWhenFalling(n, q, k - 1); }
    forall x | q[k - 1] <= x < n + 3 * k ensures Places(n, q, k)[x] == -1 || Places(n, q, k)[x] > x {
      if x + 1 < |t| { assert Places(n, q, k)[x] == t[x + 1]; }
    }
  }

  lemma NextTarget(n: nat, q: seq<nat>, k: nat)
    requires k < |q| && Falling(q, k) && forall i :: 0 <= i < |q| ==> q[i] < n
    requires forall i, j :: 0 <= i < j < |q| ==> q[i] != q[j]
    ensures Places(n, q, k)[q[k]] == q[k] <==> Falling(q, k + 1)
  {
    if k > 0 {
      PlacesWhenFalling(n, q, k);
      assert q[k - 1] != q[k];
    }
  }

  // The intended blocks are the ones split if and only if their indices, in
  // the order they are taken, only ever fall.
  lemma {:induction false} SplitsTheLargestIff(n: nat, q: seq<nat>, k: nat)
    requires k <= |q| && forall i :: 0 <= i < |q| ==> q[i] < n
    requires forall i, j :: 0 <= i < j < |q| ==> q[i] != q[j]
    ensures HitsTargets(n, q, k) <==> Falling(q, k)
  {
    if k > 0 {
      var m := k - 1;
      SplitsTheLargestIff(n, q, m);
      HitsStep(n, q, m);
      assert Falling(q, k) ==> Falling(q, m);
      if Falling(q, m) { NextTarget(n, q, m); }
    }
  }

  lemma HitsStep(n: nat, q: seq<nat>, m: nat)
    requires m < |q| && forall i :: 0 <= i < |q| ==> q[i] < n
    ensures HitsTargets(n, q, m + 1) <==> HitsTargets(n, q, m) && Places(n, q, m)[q[m]] == q[m]
  {
  }

  // A block still standing is the one its place says.
  lemma {:induction false} PlacesTellBlocks(blocks: seq<Block>, q: seq<nat>, k: nat, x: nat)
    requires k <= |q| && forall i :: 0 <= i < |q| ==> q[i] < |blocks|
    requires x < |blocks| + 3 * k && Places(|blocks|, q, k)[x] >= 0
    ensures Places(|blocks|, q, k)[x] < |blocks| && Split(blocks, q, k)[x] == blocks[Places(|blocks|, q, k)[x]]
  {
    if k > 0 {
      PlacesTellBlocks(blocks, q, k - 1, if x < q[k - 1] then x else x + 1);
    }
  }

  lemma {:induction false} InGroupConcat(a: seq<Edge>, b: seq<Edge>, g: int)
    ensures InGroup(a + b, g) == InGroup(a, g) + InGroup(b, g)
  {
    if b == [] {
      assert a + b == a;
    } else {
      var n := |b| - 1;
      assert (a + b)[..|a + b| - 1] == a + b[..n];
      InGroupConcat(a, b[..n], g);
    }
  }

  lemma {:induction false} InGroupAll(a: seq<Edge>, g: int, h: int)
    requires forall k :: 0 <= k < |a| ==> a[k].src / 512 == h
    ensures InGroup(a, g) == if g == h then a else []
  {
    if a != [] {
      InGroupAll(a[..|a| - 1], g, h);
      assert a == a[..|a| - 1] + [a[|a| - 1]];
    }
  }

  // Edges of three source groups, five, four and one of them.
  const FIVE: Block := [Edge(0, 0), Edge(1, 0), Edge(2, 0), Edge(3, 0), Edge(4, 0)]
  const FOUR: Block := [Edge(600, 0), Edge(601, 0), Edge(602, 0), Edge(603, 0)]
  const ONE: Block := [Edge(1200, 0)]

  lemma GroupsOfTen(g: int)
    ensures InGroup(FIVE + FOUR + ONE, g) == if g == 0 then FIVE else if g == 1 then FOUR else if g == 2 then ONE else []
  {
    hide InGroup;
    InGroupConcat(FIVE + FOUR, ONE, g);
    InGroupConcat(FIVE, FOUR, g);
    InGroupAll(FIVE, g, 0);
    InGroupAll(FOUR, g, 1);
    InGroupAll(ONE, g, 2);
  }

  lemma {:induction false} GroupAtLeast(whole: seq<Block>, edges: seq<Edge>, i: nat)
    requires SourceBlocks(whole, edges) && i < |whole| && Group(whole[0]) >= 0
    ensures Group(whole[i]) >= i
  {
    if i > 0 { GroupAtLeast(whole, edges, i - 1); }
  }

  lemma ThreeGroups(whole: seq<Block>, edges: seq<Edge>)
    requires edges == FIVE + FOUR + ONE && SourceBlocks(whole, edges)
    requires forall i :: 0 <= i < |whole| ==> 0 <= Group(whole[i]) <= 2
    ensures |whole| == 3 && Group(whole[0]) == 0 && Group(whole[1]) == 1 && Group(whole[2]) == 2
  {
    hide InGroup;
    assert edges[0].src / 512 == 0 && edges[5].src / 512 == 1 && edges[9].src / 512 == 2;
    var a :| 0 <= a < |whole| && whole[a] != [] && Group(whole[a]) == edges[0].src / 512;
    var b :| 0 <= b < |whole| && whole[b] != [] && Group(whole[b]) == edges[5].src / 512;
    var c :| 0 <= c < |whole| && whole[c] != [] && Group(whole[c]) == edges[9].src / 512;
    GroupAtLeast(whole, edges, |whole| - 1);
  }

  lemma ThreeInOrder(order: seq<nat>)
    requires Ordered([FIVE, FOUR, ONE], order) && |order| == 3
    ensures order == [0, 1, 2]
  {
    var blocks := [FIVE, FOUR, ONE];
    assert |blocks[0]| == 5 && |blocks[1]| == 4 && |blocks[2]| == 1;
    assert Before(blocks, order[0], order[1]) && Before(blocks, order[1], order[2]) && Before(blocks, order[0], order[2]);
  }

  // Three blocks, and so one order.
  lemma BlocksOfTen(whole: seq<Block>, order: seq<nat>)
    requires SourceBlocks(whole, FIVE + FOUR + ONE) && Ordered(whole, order) && |order| == |whole|
    ensures whole == [FIVE, FOUR, ONE] && order == [0, 1, 2]
  {
    hide InGroup;
    var edges := FIVE + FOUR + ONE;
    forall i | 0 <= i < |whole| ensures 0 <= Group(whole[i]) <= 2 {
      GroupsOfTen(Group(whole[i]));
    }
    ThreeGroups(whole, edges);
    GroupsOfTen(0);
    GroupsOfTen(1);
    GroupsOfTen(2);
    assert whole == [whole[0], whole[1], whole[2]];
    ThreeInOrder(order);
  }

  lemma BothSplits()
    ensures Split([FIVE, FOUR, ONE], [0, 1, 2], 2) == [FOUR] + Parts(FIVE) + Parts(ONE)
  {
    hide Parts;
    var whole, q := [FIVE, FOUR, ONE], [0, 1, 2];
    assert Split(whole, q, 0) == whole;
    assert Split(whole, q, 1) == Replaced(whole, 0) == [FOUR, ONE] + Parts(FIVE);
    assert Split(whole, q, 2) == Replaced([FOUR, ONE] + Parts(FIVE), 1);
  }

  // With alpha 0.4 two of the three blocks are to be split, those of five and
  // of four edges. The block of four comes out whole; that of one is split.
  lemma SecondLargestIsMissed(whole: seq<Block>, order: seq<nat>)
    requires SourceBlocks(whole, FIVE + FOUR + ONE) && Ordered(whole, order) && |order| == |whole|
    ensures SplitCount(|order|, 0.4) == 2
    ensures Split(whole, order, 2) == [FOUR] + Parts(FIVE) + Parts(ONE)
  {
    BlocksOfTen(whole, order);
    BothSplits();
  }
}
