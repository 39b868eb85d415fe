/**
 * Dealing the blocks out to the four lists (`allocateBlocksToLists`): largest
 * first, each to the list with the fewest edges so far.
 */
module Allocation {
  import opened Greedy
  import opened Partition
  import opened Sorting

  function Sizes(blocks: seq<Block>): (p: seq<nat>)
    ensures |p| == |blocks| && forall k :: 0 <= k < |p| ==> p[k] == |blocks[k]|
  {
    seq(|blocks|, k requires 0 <= k < |blocks| => |blocks[k]|)
  }

  // The blocks that an assignment of the first n puts on a list, in order.
  function Picked(order: seq<Block>, a: seq<nat>, n: nat, l: nat): seq<Block>
    requires n <= |order| && n <= |a|
  {
    if n == 0 then [] else Picked(order, a, n - 1, l) + (if a[n - 1] == l then [order[n - 1]] else [])
  }

  lemma {:induction false} PickedLoad(order: seq<Block>, a: seq<nat>, n: nat, l: nat)
    requires n <= |order| && n <= |a|
    ensures Size(Picked(order, a, n, l)) == Load(Sizes(order), a, n, l)
  {
    if n > 0 {
      PickedLoad(order, a, n - 1, l);
      EdgesSnoc(Picked(order, a, n - 1, l), order[n - 1]);
      assert Picked(order, a, n - 1, l) + [] == Picked(order, a, n - 1, l);
    }
  }

  // How often a block occurs among the first n, and on a list.
  function Times(order: seq<Block>, n: nat, x: Block): nat
    requires n <= |order|
  {
    if n == 0 then 0 else Times(order, n - 1, x) + (if order[n - 1] == x then 1 else 0)
  }

  lemma {:induction false} TimesIs(order: seq<Block>, n: nat, x: Block)
    requires n <= |order|
    ensures Times(order, n, x) == multiset(order[..n])[x]
  {
    if n > 0 {
      TimesIs(order, n - 1, x);
      assert order[..n] == order[..n - 1] + [order[n - 1]];
    }
  }

  function OnList(order: seq<Block>, a: seq<nat>, n: nat, l: nat, x: Block): nat
    requires n <= |order| && n <= |a|
  {
    if n == 0 then 0 else OnList(order, a, n - 1, l, x) + (if a[n - 1] == l && order[n - 1] == x then 1 else 0)
  }

  lemma OneMoreOf(s: seq<Block>, y: Block, x: Block)
    ensures multiset(s + [y])[x] == multiset(s)[x] + if x == y then 1 else 0
  {
  }

  lemma {:induction false} OnListIs(order: seq<Block>, a: seq<nat>, n: nat, l: nat, x: Block)
    requires n <= |order| && n <= |a|
    ensures multiset(Picked(order, a, n, l))[x] == OnList(order, a, n, l, x)
  {
    if n > 0 {
      OnListIs(order, a, n - 1, l, x);
      OneMoreOf(Picked(order, a, n - 1, l), order[n - 1], x);
    }
  }

  // Every block is on exactly one list.
  lemma {:induction false} PickedOnce(order: seq<Block>, a: seq<nat>, n: nat, x: Block)
    requires n <= |order| && n <= |a| && Assignment(a)
    ensures OnList(order, a, n, 0, x) + OnList(order, a, n, 1, x) + OnList(order, a, n, 2, x) + OnList(order, a, n, 3, x)
            == Times(order, n, x)
  {
    if n > 0 { PickedOnce(order, a, n - 1, x); }
  }

  // The blocks of four lists.
  ghost function AllBlocks(lists: seq<seq<Block>>): multiset<Block>
    requires |lists| == LISTS
  {
    multiset(lists[0]) + multiset(lists[1]) + multiset(lists[2]) + multiset(lists[3])
  }

  lemma PickedAll(order: seq<Block>, a: seq<nat>, lists: seq<seq<Block>>)
    requires |a| == |order| && Assignment(a) && |lists| == LISTS
    requires forall l :: 0 <= l < LISTS ==> lists[l] == Picked(order, a, |order|, l)
    ensures AllBlocks(lists) == multiset(order)
  {
    assert order[..|order|] == order;
    forall x: Block ensures AllBlocks(lists)[x] == multiset(order)[x] {
      OnListIs(order, a, |order|, 0, x);
      OnListIs(order, a, |order|, 1, x);
      OnListIs(order, a, |order|, 2, x);
      OnListIs(order, a, |order|, 3, x);
      PickedOnce(order, a, |order|, x);
      TimesIs(order, |order|, x);
    }
  }

  // ---------------------------------------------------------------------
  // The algorithm.
  // ---------------------------------------------------------------------

  predicate NotSmaller(a: Block, b: Block) {
    |a| >= |b|
  }

  method SortDescending(blocks: seq<Block>) returns (r: seq<Block>)
    ensures multiset(r) == multiset(blocks)
    ensures Descending(Sizes(r))
  {
    r := Sort(blocks, NotSmaller);
    assert forall i, j :: 0 <= i <= j < |r| ==> NotSmaller(r[i], r[j]);
  }

  // The sort of one batch, by size. What it gets is sorted already, so the
  // sizes stay as they are.
  method SortBatch(batch: seq<(nat, nat)>) returns (r: seq<(nat, nat)>)
    requires forall i, j :: 0 <= i <= j < |batch| ==> batch[i].1 >= batch[j].1
    ensures r == batch
  {
    r := [];
    var i := 0;
    while i < |batch|
      invariant 0 <= i <= |batch| && r == batch[..i]
    {
      var at := 0;
      while at < |r| && r[at].1 >= batch[i].1
        invariant 0 <= at <= |r|
      {
        at := at + 1;
      }
      assert at == |r|;
      r := r[..at] + [batch[i]] + r[at..];
      i := i + 1;
    }
  }

  method MinElement(counts: seq<nat>) returns (minIndex: nat)
    requires |counts| == LISTS
    ensures minIndex == LeastLoaded(counts, LISTS)
  {
    minIndex := 0;
    var l := 1;
    while l < LISTS
      invariant 1 <= l <= LISTS && minIndex == LeastLoaded(counts, l)
    {
      if counts[l] < counts[minIndex] { minIndex := l; }
      l := l + 1;
    }
  }

  // One list and its edge count after the first n blocks.
  ghost predicate Holds(order: seq<Block>, a: seq<nat>, l: nat, list: seq<Block>, count: nat)
    requires |a| <= |order|
  {
    list == Picked(order, a, |a|, l) && count == Load(Sizes(order), a, |a|, l)
  }

  // So far every block went to a list that was least loaded at the time.
  ghost predicate GreedySoFar(order: seq<Block>, a: seq<nat>) {
    && |a| <= |order| && Assignment(a)
    && (forall k :: 0 <= k < |a| ==> a[k] == LeastLoaded(Loads(Sizes(order), a, k), LISTS))
  }

  ghost predicate Dealt(order: seq<Block>, a: seq<nat>, lists: seq<seq<Block>>, counts: seq<nat>) {
    GreedySoFar(order, a) && AllHold(order, a, lists, counts)
  }

  lemma {:induction false} DealtPrefix(order: seq<Block>, a: seq<nat>, m: nat, n: nat, l: nat)
    requires n <= |a| && n <= |order| && m < LISTS
    ensures Picked(order, a + [m], n, l) == Picked(order, a, n, l)
    ensures Load(Sizes(order), a + [m], n, l) == Load(Sizes(order), a, n, l)
  {
    if n > 0 { DealtPrefix(order, a, m, n - 1, l); }
  }

  lemma LoadsPrefix(order: seq<Block>, a: seq<nat>, m: nat, k: nat)
    requires k <= |a| && k <= |order| && m < LISTS
    ensures Loads(Sizes(order), a + [m], k) == Loads(Sizes(order), a, k)
  {
    forall l | 0 <= l < LISTS ensures Loads(Sizes(order), a + [m], k)[l] == Loads(Sizes(order), a, k)[l] {
      DealtPrefix(order, a, m, k, l);
    }
  }

  lemma GreedyStep(order: seq<Block>, a: seq<nat>, counts: seq<nat>, m: nat)
    requires GreedySoFar(order, a) && |a| < |order| && |counts| == LISTS
    requires forall l :: 0 <= l < LISTS ==> counts[l] == Load(Sizes(order), a, |a|, l)
    requires m == LeastLoaded(counts, LISTS)
    ensures GreedySoFar(order, a + [m])
  {
    var a' := a + [m];
    forall k | 0 <= k < |a'| ensures a'[k] == LeastLoaded(Loads(Sizes(order), a', k), LISTS) {
      LoadsPrefix(order, a, m, k);
      if k == |a| { assert counts == Loads(Sizes(order), a, k); }
    }
  }

  lemma HoldsStep(order: seq<Block>, a: seq<nat>, m: nat, l: nat, list: seq<Block>, count: nat)
    requires |a| < |order| && m < LISTS && Holds(order, a, l, list, count)
    ensures var b := order[|a|];
            Holds(order, a + [m], l, if l == m then list + [b] else list, if l == m then count + |b| else count)
  {
    DealtPrefix(order, a, m, |a|, l);
    assert list + [] == list;
  }

  lemma ListStep(order: seq<Block>, a: seq<nat>, lists: seq<seq<Block>>, counts: seq<nat>, m: nat, l: nat)
    requires |a| < |order| && m < LISTS && l < LISTS && |lists| == |counts| == LISTS
    requires Holds(order, a, l, lists[l], counts[l])
    ensures var b := order[|a|];
            Holds(order, a + [m], l, lists[m := lists[m] + [b]][l], counts[m := counts[m] + |b|][l])
  {
    HoldsStep(order, a, m, l, lists[l], counts[l]);
  }

  ghost predicate AllHold(order: seq<Block>, a: seq<nat>, lists: seq<seq<Block>>, counts: seq<nat>) {
    && |a| <= |order| && |lists| == |counts| == LISTS
    && (forall l :: 0 <= l < LISTS ==> Holds(order, a, l, lists[l], counts[l]))
  }

  lemma ListsStep(order: seq<Block>, a: seq<nat>, lists: seq<seq<Block>>, counts: seq<nat>, m: nat)
    requires AllHold(order, a, lists, counts) && |a| < |order| && m < LISTS
    ensures var b := order[|a|];
            AllHold(order, a + [m], lists[m := lists[m] + [b]], counts[m := counts[m] + |b|])
  {
    var b := order[|a|];
    var lists', counts' := lists[m := lists[m] + [b]], counts[m := counts[m] + |b|];
    forall l | 0 <= l < LISTS ensures Holds(order, a + [m], l, lists'[l], counts'[l]) {
      ListStep(order, a, lists, counts, m, l);
    }
  }

  lemma DealtStep(order: seq<Block>, a: seq<nat>, lists: seq<seq<Block>>, counts: seq<nat>, m: nat)
    requires Dealt(order, a, lists, counts) && |a| < |order| && m == LeastLoaded(counts, LISTS)
    ensures var b := order[|a|];
            Dealt(order, a + [m], lists[m := lists[m] + [b]], counts[m := counts[m] + |b|])
  {
    GreedyStep(order, a, counts, m);
    ListsStep(order, a, lists, counts, m);
  }

  // The batch of blocks i up to at most i + 3, with their sizes.
  method MakeBatch(subblocks: seq<Block>, i: nat) returns (batch: seq<(nat, nat)>)
    requires i < |subblocks|
    ensures |batch| == (if i + NUM_SLRS <= |subblocks| then NUM_SLRS else |subblocks| - i)
    ensures forall k :: 0 <= k < |batch| ==> batch[k] == (i + k, |subblocks[i + k]|)
  {
    batch := [];
    var j := i;
    while j < i + NUM_SLRS && j < |subblocks|
      invariant i <= j <= i + NUM_SLRS && j <= |subblocks| && |batch| == j - i
      invariant forall k :: 0 <= k < |batch| ==> batch[k] == (i + k, |subblocks[i + k]|)
    {
      batch := batch + [(j, |subblocks[j]|)];
      j := j + 1;
    }
  }

  // Puts the next block on the list with the fewest edges.
  method DealOne(order: seq<Block>, index: nat, edgeCount: nat, lists: seq<seq<Block>>, counts: seq<nat>, ghost a: seq<nat>)
    returns (lists': seq<seq<Block>>, counts': seq<nat>, ghost a': seq<nat>)
    requires Dealt(order, a, lists, counts) && index == |a| < |order| && edgeCount == |order[index]|
    ensures Dealt(order, a', lists', counts') && |a'| == |a| + 1
  {
    var minIndex := MinElement(counts);
    DealtStep(order, a, lists, counts, minIndex);
    lists' := lists[minIndex := lists[minIndex] + [order[index]]];
    counts' := counts[minIndex := counts[minIndex] + edgeCount];
    a' := a + [minIndex];
  }

  // Deals one batch out.
  method DealBatch(order: seq<Block>, batch: seq<(nat, nat)>, i: nat, lists: seq<seq<Block>>, counts: seq<nat>, ghost a: seq<nat>)
    returns (lists': seq<seq<Block>>, counts': seq<nat>, ghost a': seq<nat>)
    requires Dealt(order, a, lists, counts) && i == |a| && i + |batch| <= |order|
    requires forall k :: 0 <= k < |batch| ==> batch[k] == (i + k, |order[i + k]|)
    ensures Dealt(order, a', lists', counts') && |a'| == i + |batch|
  {
    lists', counts', a' := lists, counts, a;
    var k := 0;
    while k < |batch|
      invariant 0 <= k <= |batch|
      invariant Dealt(order, a', lists', counts') && |a'| == i + k
    {
      var (index, edgeCount) := batch[k];
      lists', counts', a' := DealOne(order, index, edgeCount, lists', counts', a');
      k := k + 1;
    }
  }

  // The whole allocation: the blocks in descending order, dealt out greedily.
  method AllocateBlocksToLists(subblocks: seq<Block>)
    returns (lists: seq<seq<Block>>, ghost order: seq<Block>, ghost a: seq<nat>)
    ensures multiset(order) == multiset(subblocks)
    ensures Descending(Sizes(order)) && IsGreedy(Sizes(order), a)
    ensures |lists| == LISTS && forall l :: 0 <= l < LISTS ==> lists[l] == Picked(order, a, |order|, l)
    ensures AllBlocks(lists) == multiset(subblocks)
  {
    var sorted := SortDescending(subblocks);
    order, a := sorted, [];
    lists := [[], [], [], []];
    var listEdgeCounts: seq<nat> := [0, 0, 0, 0];
    var i := 0;
    while i < |sorted|
      invariant 0 <= i <= |sorted|
      invariant Dealt(order, a, lists, listEdgeCounts) && |a| == i
      decreases |sorted| - i
    {
      var batch := MakeBatch(sorted, i);
      forall j, k | 0 <= j <= k < |batch| ensures batch[j].1 >= batch[k].1 {
        assert Sizes(sorted)[i + j] >= Sizes(sorted)[i + k];
      }
      batch := SortBatch(batch);
      lists, listEdgeCounts, a := DealBatch(sorted, batch, i, lists, listEdgeCounts, a);
      i := i + |batch|;
    }
    PickedAll(order, a, lists);
  }

  // ---------------------------------------------------------------------
  // How good it is.
  // ---------------------------------------------------------------------

  // Any other way to spread the blocks over four lists is an assignment.
  lemma {:induction false} Spread(order: seq<Block>, n: nat, other: seq<seq<Block>>) returns (b: seq<nat>)
    requires n <= |order| && |other| == LISTS && AllBlocks(other) == multiset(order[..n])
    ensures |b| == n && Assignment(b)
    ensures forall l :: 0 <= l < LISTS ==> Load(Sizes(order), b, n, l) == Size(other[l])
  {
    if n == 0 {
      b := [];
      forall l | 0 <= l < LISTS ensures other[l] == [] { EmptyPart(other, l); }
    } else {
      var l, i := FindBlock(other, order, n);
      var other' := other[l := other[l][..i] + other[l][i + 1..]];
      RemoveBlock(other, l, i, order, n);
      var b' := Spread(order, n - 1, other');
      b := b' + [l];
      forall m | 0 <= m < LISTS ensures Load(Sizes(order), b, n, m) == Size(other[m]) {
        SpreadStep(order, n, b', l, i, other, m);
      }
    }
  }

  lemma SpreadStep(order: seq<Block>, n: nat, b: seq<nat>, l: nat, i: nat, other: seq<seq<Block>>, m: nat)
    requires 0 < n <= |order| && |b| == n - 1 && |other| == LISTS && l < LISTS && m < LISTS
    requires i < |other[l]| && other[l][i] == order[n - 1]
    requires Load(Sizes(order), b, n - 1, m) == Size(other[l := other[l][..i] + other[l][i + 1..]][m])
    ensures Load(Sizes(order), b + [l], n, m) == Size(other[m])
  {
    DealtPrefix(order, b, l, n - 1, m);
    SizeWithout(other[l], i);
  }

  lemma SizeWithout(list: seq<Block>, i: nat)
    requires i < |list|
    ensures Size(list) == Size(list[..i] + list[i + 1..]) + |list[i]|
  {
    EdgesSplit(list, i);
    EdgesConcat(list[..i], list[i + 1..]);
  }

  lemma EmptyPart(other: seq<seq<Block>>, l: nat)
    requires |other| == LISTS && l < LISTS && AllBlocks(other) == multiset{}
    ensures other[l] == []
  {
    assert |multiset(other[l])| == 0 by {
      assert multiset(other[l]) <= AllBlocks(other);
    }
  }

  lemma FindBlock(other: seq<seq<Block>>, order: seq<Block>, n: nat) returns (l: nat, i: nat)
    requires 0 < n <= |order| && |other| == LISTS && AllBlocks(other) == multiset(order[..n])
    ensures l < LISTS && i < |other[l]| && other[l][i] == order[n - 1]
  {
    var x := order[n - 1];
    assert order[..n][n - 1] == x;
    assert x in AllBlocks(other);
    l :| 0 <= l < LISTS && x in other[l];
    i :| 0 <= i < |other[l]| && other[l][i] == x;
  }

  lemma RemoveBlock(other: seq<seq<Block>>, l: nat, i: nat, order: seq<Block>, n: nat)
    requires 0 < n <= |order| && |other| == LISTS && AllBlocks(other) == multiset(order[..n])
    requires l < LISTS && i < |other[l]| && other[l][i] == order[n - 1]
    ensures AllBlocks(other[l := other[l][..i] + other[l][i + 1..]]) == multiset(order[..n - 1])
  {
    var x, rest := order[n - 1], other[l][..i] + other[l][i + 1..];
    TakeOut(other[l], i);
    Without(other, l, rest, x);
    hide AllBlocks;
    assert order[..n] == order[..n - 1] + [x];
    assert multiset(order[..n]) - multiset{x} == multiset(order[..n - 1]);
  }

  lemma TakeOut(list: seq<Block>, i: nat)
    requires i < |list|
    ensures multiset(list) == multiset(list[..i] + list[i + 1..]) + multiset{list[i]}
  {
    assert list == list[..i] + [list[i]] + list[i + 1..];
  }

  lemma Without(other: seq<seq<Block>>, l: nat, rest: seq<Block>, x: Block)
    requires |other| == LISTS && l < LISTS && multiset(other[l]) == multiset(rest) + multiset{x}
    ensures AllBlocks(other[l := rest]) == AllBlocks(other) - multiset{x}
  {
    var a, b, c, d := multiset(other[0]), multiset(other[1]), multiset(other[2]), multiset(other[3]);
    var r := multiset(rest);
    if l == 0 {
      assert r + b + c + d == r + multiset{x} + b + c + d - multiset{x};
    } else if l == 1 {
      assert a + r + c + d == a + (r + multiset{x}) + c + d - multiset{x};
    } else if l == 2 {
      assert a + b + r + d == a + b + (r + multiset{x}) + d - multiset{x};
    } else {
      assert a + b + c + r == a + b + c + (r + multiset{x}) - multiset{x};
    }
  }

  // No way to spread the blocks over four lists is better by more than a
  // quarter: if every one of its lists has at most opt edges, every list of
  // the allocation has at most 5/4 of that.
  lemma AllocationWithin5Over4(order: seq<Block>, a: seq<nat>, lists: seq<seq<Block>>, other: seq<seq<Block>>, opt: nat, l: nat)
    requires Descending(Sizes(order)) && IsGreedy(Sizes(order), a) && |lists| == |other| == LISTS && l < LISTS
    requires forall m :: 0 <= m < LISTS ==> lists[m] == Picked(order, a, |order|, m)
    requires AllBlocks(other) == multiset(order) && forall m :: 0 <= m < LISTS ==> Size(other[m]) <= opt
    ensures 4 * Size(lists[l]) <= 5 * opt
  {
    assert order[..|order|] == order;
    var b := Spread(order, |order|, other);
    PickedLoad(order, a, |order|, l);
    GreedyWithin5Over4(Sizes(order), a, b, opt, l);
  }
}
