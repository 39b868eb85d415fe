/**
 * The Python partitioner from edges to files (`input_aware.py`): counting the
 * edges of every source group, splitting the large counts in four, cutting the
 * edge array at the cumulative counts, and writing the slices of each group of
 * items. The header of a file comes from the balanced sums, not from the file.
 */
module GroupFiles {
  import opened Partition
  import opened EdgeFile
  import opened Sorting
  import opened R = Rebalance

  // The sum of the first j items.
  function Index(items: seq<nat>, j: nat): nat
    requires j <= |items|
  {
    if j == 0 then 0 else Index(items, j - 1) + items[j - 1]
  }

  lemma {:induction false} IndexGrows(items: seq<nat>, i: nat, j: nat)
    requires i <= j <= |items|
    ensures Index(items, i) <= Index(items, j)
  {
    if i < j { IndexGrows(items, i, j - 1); }
  }

  lemma {:induction false} IndexPrefix(items: seq<nat>, more: seq<nat>, j: nat)
    requires j <= |items|
    ensures Index(items + more, j) == Index(items, j)
  {
    if j > 0 { IndexPrefix(items, more, j - 1); }
  }

  // ---------------------------------------------------------------------
  // Counting.
  // ---------------------------------------------------------------------

  ghost predicate Counted(counts: seq<nat>, edges: seq<Edge>) {
    && (forall g :: 0 <= g < |counts| ==> counts[g] == |InGroup(edges, g)|)
    && (forall k :: 0 <= k < |edges| ==> 0 <= edges[k].src / 512 < |counts|)
  }

  lemma CountedZero(counts: seq<nat>, edges: seq<Edge>)
    requires Counted(counts, edges)
    ensures Counted(counts + [0], edges)
  {
    NothingBeyond(edges, |counts|);
  }

  lemma CountedPush(counts: seq<nat>, edges: seq<Edge>, e: Edge, g: nat)
    requires Counted(counts, edges) && g == e.src / 512 && g < |counts|
    ensures Counted(counts[g := counts[g] + 1], edges + [e])
  {
    forall h | 0 <= h < |counts| ensures counts[g := counts[g] + 1][h] == |InGroup(edges + [e], h)| { InGroupSnoc(edges, e, h); }
  }

  lemma {:induction false} IndexOfPush(counts: seq<nat>, g: nat, j: nat)
    requires g < |counts| && j <= |counts|
    ensures Index(counts[g := counts[g] + 1], j) == Index(counts, j) + if g < j then 1 else 0
  {
    if j > 0 { IndexOfPush(counts, g, j - 1); }
  }

  lemma TakeOneMore(edges: seq<Edge>, k: nat)
    requires k < |edges|
    ensures edges[..k + 1] == edges[..k] + [edges[k]]
  {
  }

  lemma NothingCounted()
    ensures Counted([], []) && Index([], 0) == 0
  {
  }

  method BinCount(edges: seq<Edge>) returns (counts: seq<nat>)
    requires forall k :: 0 <= k < |edges| ==> edges[k].src >= 0
    ensures Counted(counts, edges) && Index(counts, |counts|) == |edges|
    ensures (edges == [] <==> counts == []) && (counts != [] ==> counts[|counts| - 1] > 0)
  {
    hide *;
    counts := [];
    NothingCounted();
    assert edges[..0] == [];
    var k := 0;
    while k < |edges|
      invariant 0 <= k <= |edges| && Counted(counts, edges[..k]) && Index(counts, |counts|) == k
      invariant (k == 0 <==> counts == []) && (counts != [] ==> counts[|counts| - 1] > 0)
    {
      TakeOneMore(edges, k);
      counts := CountOne(counts, edges[k], edges[..k]);
      k := k + 1;
    }
    assert edges[..k] == edges;
  }

  method CountOne(counts: seq<nat>, e: Edge, ghost edges: seq<Edge>) returns (r: seq<nat>)
    requires Counted(counts, edges) && Index(counts, |counts|) == |edges| && e.src >= 0
    requires counts != [] ==> counts[|counts| - 1] > 0
    ensures Counted(r, edges + [e]) && Index(r, |r|) == |edges| + 1
    ensures r != [] && r[|r| - 1] > 0
  {
    hide Counted, InGroup;
    var g := e.src / BLOCK_SIZE;
    r := counts;
    while |r| <= g
      invariant Counted(r, edges) && Index(r, |r|) == |edges|
      invariant |r| <= g || (r != [] && (r[|r| - 1] > 0 || |r| == g + 1))
      decreases g - |r|
    {
      CountedZero(r, edges);
      IndexPrefix(r, [0], |r|);
      r := r + [0];
    }
    CountedPush(r, edges, e, g);
    IndexOfPush(r, g, |r|);
    r := r[g := r[g] + 1];
  }

  // ---------------------------------------------------------------------
  // Splitting the counts.
  // ---------------------------------------------------------------------

  function Largest(counts: seq<nat>): (m: nat)
    requires counts != []
    ensures m in counts && forall g :: 0 <= g < |counts| ==> counts[g] <= m
  {
    if |counts| == 1 then counts[0]
    else
      var m := Largest(counts[..|counts| - 1]);
      if counts[|counts| - 1] > m then counts[|counts| - 1] else m
  }

  // The larger of 0.8 times the largest count and twice the mean.
  function Threshold(counts: seq<nat>): real
    requires counts != []
  {
    var a := Largest(counts) as real * 0.8;
    var b := (Index(counts, |counts|) as real / |counts| as real) * 2.0;
    if a >= b then a else b
  }

  // A quarter of the count, the first ones rounded up.
  function Quarter(count: nat, j: nat): nat {
    count / 4 + if j < count % 4 then 1 else 0
  }

  // The items made from the first g counts are items[..starts[g]]: a count
  // above the threshold becomes its four quarters, any other stays.
  ghost predicate SplitUpTo(items: seq<nat>, starts: seq<nat>, counts: seq<nat>, threshold: real, g: nat) {
    && g <= |counts| && |starts| == g + 1 && starts[0] == 0 && starts[g] == |items|
    && (forall h :: 0 <= h < g ==> SplitAt(items, starts[h], starts[h + 1], counts[h], threshold))
    && (forall h :: 0 <= h <= g ==> starts[h] <= |items| && Index(items, starts[h]) == Index(counts, h))
  }

  ghost predicate SplitAt(items: seq<nat>, lo: nat, hi: nat, count: nat, threshold: real) {
    && lo <= hi <= |items|
    && if count as real > threshold then hi == lo + 4 && forall j :: 0 <= j < 4 ==> items[lo + j] == Quarter(count, j)
       else hi == lo + 1 && items[lo] == count
  }

  lemma QuartersAddUp(count: nat)
    ensures Quarter(count, 0) + Quarter(count, 1) + Quarter(count, 2) + Quarter(count, 3) == count
  {
    assert count == 4 * (count / 4) + count % 4;
  }

  lemma IndexOfFour(items: seq<nat>, count: nat)
    ensures var q := [Quarter(count, 0), Quarter(count, 1), Quarter(count, 2), Quarter(count, 3)];
            Index(items + q, |items| + 4) == Index(items, |items|) + count
  {
    var q := [Quarter(count, 0), Quarter(count, 1), Quarter(count, 2), Quarter(count, 3)];
    IndexPrefix(items, q, |items|);
    QuartersAddUp(count);
    var r := items + q;
    assert Index(r, |items| + 1) == Index(r, |items|) + q[0];
    assert Index(r, |items| + 2) == Index(r, |items| + 1) + q[1];
    assert Index(r, |items| + 3) == Index(r, |items| + 2) + q[2];
  }

  lemma SplitAtMore(items: seq<nat>, more: seq<nat>, lo: nat, hi: nat, count: nat, threshold: real)
    requires SplitAt(items, lo, hi, count, threshold)
    ensures SplitAt(items + more, lo, hi, count, threshold)
  {
  }

  lemma IndexNext(counts: seq<nat>, g: nat)
    requires g < |counts|
    ensures Index(counts, g + 1) == Index(counts, g) + counts[g]
  {
  }

  lemma {:induction false} SplitNext(items: seq<nat>, more: seq<nat>, starts: seq<nat>, counts: seq<nat>, threshold: real, g: nat)
    requires SplitUpTo(items, starts, counts, threshold, g) && g < |counts|
    requires SplitAt(items + more, |items|, |items| + |more|, counts[g], threshold)
    requires Index(items + more, |items| + |more|) == Index(items, |items|) + counts[g]
    ensures SplitUpTo(items + more, starts + [|items| + |more|], counts, threshold, g + 1)
  {
    hide SplitAt, Index;
    var items', starts' := items + more, starts + [|items| + |more|];
    forall h | 0 <= h < g + 1 ensures SplitAt(items', starts'[h], starts'[h + 1], counts[h], threshold) {
      if h < g { SplitAtMore(items, more, starts[h], starts[h + 1], counts[h], threshold); }
    }
    IndexNext(counts, g);
    forall h | 0 <= h <= g + 1 ensures starts'[h] <= |items'| && Index(items', starts'[h]) == Index(counts, h) {
      if h <= g { IndexPrefix(items, more, starts[h]); }
    }
  }

  lemma SplitRange(items: seq<nat>, starts: seq<nat>, counts: seq<nat>, threshold: real, g: nat)
    requires SplitUpTo(items, starts, counts, threshold, |counts|) && g < |counts|
    ensures |starts| == |counts| + 1 && starts[g] <= starts[g + 1] <= |items|
    ensures Index(items, starts[g]) == Index(counts, g) && Index(items, starts[g + 1]) == Index(counts, g + 1)
  {
    assert SplitAt(items, starts[g], starts[g + 1], counts[g], threshold);
  }

  // A count is split if it is more than 0.8 times the largest count and more
  // than twice the mean.
  ghost predicate IsLarge(counts: seq<nat>, g: nat)
    requires g < |counts|
  {
    10 * counts[g] > 8 * Largest(counts) && |counts| * counts[g] > 2 * Index(counts, |counts|)
  }

  lemma AboveTwiceMean(count: nat, sum: nat, n: nat)
    requires n > 0
    ensures count as real > (sum as real / n as real) * 2.0 <==> n * count > 2 * sum
  {
    var q := sum as real / n as real;
    assert q * n as real == sum as real;
    Scaled(count as real, q * 2.0, n as real);
    assert (q * 2.0) * n as real == 2.0 * (q * n as real);
    assert count as real * n as real == (n * count) as real;
  }

  lemma Scaled(x: real, y: real, z: real)
    requires z > 0.0
    ensures x > y <==> x * z > y * z
  {
    assert x * z - y * z == (x - y) * z;
    if x > y { assert (x - y) * z > 0.0; } else { assert (y - x) * z >= 0.0; }
  }

  lemma AboveThreshold(counts: seq<nat>, g: nat)
    requires g < |counts|
    ensures counts[g] as real > Threshold(counts) <==> IsLarge(counts, g)
  {
    AboveTwiceMean(counts[g], Index(counts, |counts|), |counts|);
  }

  // What is made of one count: four items, in descending order and apart by one
  // at most, that add up to it, or the count itself.
  ghost predicate MadeOf(part: seq<nat>, count: nat, split: bool) {
    if split then
      && |part| == 4 && part[0] + part[1] + part[2] + part[3] == count
      && part[0] >= part[1] >= part[2] >= part[3] && part[0] <= part[3] + 1
    else part == [count]
  }

  // The items made of count g stand at starts[g].
  ghost predicate ItemsAt(items: seq<nat>, starts: seq<nat>, counts: seq<nat>, g: nat)
    requires g < |counts| && |starts| == |counts| + 1
  {
    var lo, hi := starts[g], starts[g + 1];
    lo <= hi <= |items| && MadeOf(items[lo..hi], counts[g], IsLarge(counts, g))
  }

  // The items are made of the counts in turn.
  ghost predicate ItemsOf(items: seq<nat>, starts: seq<nat>, counts: seq<nat>) {
    && |starts| == |counts| + 1 && starts[0] == 0 && starts[|counts|] == |items|
    && forall g :: 0 <= g < |counts| ==> ItemsAt(items, starts, counts, g)
  }

  lemma SplitIsMade(items: seq<nat>, lo: nat, hi: nat, count: nat, threshold: real)
    requires SplitAt(items, lo, hi, count, threshold)
    ensures MadeOf(items[lo..hi], count, count as real > threshold)
  {
    QuartersAddUp(count);
    if count as real > threshold {
      assert forall j :: 0 <= j < 4 ==> items[lo + j] == Quarter(count, j);
      assert items[lo..hi] == [items[lo], items[lo + 1], items[lo + 2], items[lo + 3]];
    }
  }

  lemma SplitIsItems(items: seq<nat>, starts: seq<nat>, counts: seq<nat>)
    requires counts != [] && SplitUpTo(items, starts, counts, Threshold(counts), |counts|)
    ensures ItemsOf(items, starts, counts)
  {
    forall g | 0 <= g < |counts| ensures ItemsAt(items, starts, counts, g) {
      assert SplitAt(items, starts[g], starts[g + 1], counts[g], Threshold(counts));
      hide Threshold, IsLarge, Index, MadeOf;
      SplitIsMade(items, starts[g], starts[g + 1], counts[g], Threshold(counts));
      AboveThreshold(counts, g);
    }
  }

  // One count, split or not.
  method QuarterIfLarge(count: nat, threshold: real, ghost items: seq<nat>) returns (more: seq<nat>)
    ensures SplitAt(items + more, |items|, |items| + |more|, count, threshold)
    ensures Index(items + more, |items| + |more|) == Index(items, |items|) + count
  {
    if count as real > threshold {
      more := [Quarter(count, 0), Quarter(count, 1), Quarter(count, 2), Quarter(count, 3)];
      IndexOfFour(items, count);
    } else {
      more := [count];
      IndexPrefix(items, more, |items|);
    }
  }

  method SplitCounts(counts: seq<nat>, threshold: real) returns (items: seq<nat>, ghost starts: seq<nat>)
    ensures SplitUpTo(items, starts, counts, threshold, |counts|)
  {
    items, starts := [], [0];
    var g := 0;
    while g < |counts|
      invariant 0 <= g <= |counts| && SplitUpTo(items, starts, counts, threshold, g)
    {
      hide SplitAt, Index;
      var more := QuarterIfLarge(counts[g], threshold, items);
      SplitNext(items, more, starts, counts, threshold, g);
      starts := starts + [|items| + |more|];
      items := items + more;
      g := g + 1;
    }
  }

  method CumSum(items: seq<nat>) returns (index: seq<nat>)
    ensures |index| == |items| + 1 && forall j :: 0 <= j <= |items| ==> index[j] == Index(items, j)
  {
    index := [0];
    var j := 0;
    while j < |items|
      invariant 0 <= j <= |items| && |index| == j + 1
      invariant forall i :: 0 <= i <= j ==> index[i] == Index(items, i)
    {
      index := index + [index[j] + items[j]];
      j := j + 1;
    }
  }

  // ---------------------------------------------------------------------
  // The slices.
  // ---------------------------------------------------------------------

  // Item j of the edge array.
  function Slice(edges: seq<Edge>, items: seq<nat>, j: nat): (b: Block)
    requires j < |items| && Index(items, |items|) <= |edges|
    ensures |b| == items[j]
  {
    IndexGrows(items, j + 1, |items|);
    edges[Index(items, j)..Index(items, j + 1)]
  }

  function Slices(edges: seq<Edge>, items: seq<nat>, n: nat): (s: seq<Block>)
    requires n <= |items| && Index(items, |items|) <= |edges|
    ensures |s| == n && forall j :: 0 <= j < n ==> s[j] == Slice(edges, items, j)
  {
    seq(n, j requires 0 <= j < n => Slice(edges, items, j))
  }

  lemma NextSlice(edges: seq<Edge>, items: seq<nat>, n: nat)
    requires n < |items| && Index(items, |items|) <= |edges|
    ensures Slices(edges, items, n + 1) == Slices(edges, items, n) + [Slice(edges, items, n)]
    ensures Index(items, n) <= Index(items, n + 1) <= |edges|
    ensures edges[..Index(items, n + 1)] == edges[..Index(items, n)] + Slice(edges, items, n)
  {
    IndexGrows(items, n + 1, |items|);
  }

  lemma NothingSliced(edges: seq<Edge>, items: seq<nat>)
    requires Index(items, |items|) <= |edges|
    ensures Index(items, 0) == 0 && Edges(Slices(edges, items, 0)) == multiset{} && edges[..0] == []
  {
  }

  // Together they are the whole array.
  lemma {:induction false} SlicesCover(edges: seq<Edge>, items: seq<nat>, n: nat)
    requires n <= |items| && Index(items, |items|) <= |edges|
    ensures Index(items, n) <= |edges| && Edges(Slices(edges, items, n)) == multiset(edges[..Index(items, n)])
  {
    hide Edges, Slices, Index;
    if n == 0 {
      NothingSliced(edges, items);
    } else {
      SlicesCover(edges, items, n - 1);
      NextSlice(edges, items, n - 1);
      EdgesSnoc(Slices(edges, items, n - 1), Slice(edges, items, n - 1));
    }
  }

  // For sorted edges, edge k of group h stands behind all edges of smaller
  // groups and before all edges of larger ones.
  lemma {:induction false} SortedPlace(edges: seq<Edge>, k: nat, g: int)
    requires BySource(edges) && k < |edges|
    ensures g <= edges[k].src / 512 ==> Before(edges, g) <= k
    ensures g > edges[k].src / 512 ==> k < Before(edges, g)
  {
    var n := |edges| - 1;
    var front := edges[..n];
    if k < n {
      SortedPlace(front, k, g);
      assert edges[k].src <= edges[n].src;
    } else if g > edges[n].src / 512 {
      AllBefore(edges, g);
    } else {
      BeforeBound(front, g);
    }
  }

  // How many edges lie in groups below g.
  function Before(edges: seq<Edge>, g: int): nat {
    if edges == [] then 0
    else
      var n := |edges| - 1;
      Before(edges[..n], g) + if edges[n].src / 512 < g then 1 else 0
  }

  lemma {:induction false} BeforeBound(edges: seq<Edge>, g: int)
    ensures Before(edges, g) <= |edges|
  {
    if edges != [] { BeforeBound(edges[..|edges| - 1], g); }
  }

  lemma {:induction false} AllBefore(edges: seq<Edge>, g: int)
    requires BySource(edges) && edges != [] && edges[|edges| - 1].src / 512 < g
    ensures Before(edges, g) == |edges|
  {
    var n := |edges| - 1;
    if n > 0 {
      assert edges[n - 1].src <= edges[n].src;
      AllBefore(edges[..n], g);
    }
  }

  lemma {:induction false} BeforeNext(edges: seq<Edge>, g: int)
    ensures Before(edges, g + 1) == Before(edges, g) + |InGroup(edges, g)|
  {
    if edges != [] { BeforeNext(edges[..|edges| - 1], g); }
  }

  lemma {:induction false} NoneBefore(edges: seq<Edge>)
    requires forall k :: 0 <= k < |edges| ==> edges[k].src >= 0
    ensures Before(edges, 0) == 0
  {
    if edges != [] { NoneBefore(edges[..|edges| - 1]); }
  }

  lemma {:induction false} IndexIsBefore(edges: seq<Edge>, counts: seq<nat>, g: nat)
    requires Counted(counts, edges) && g <= |counts| && forall k :: 0 <= k < |edges| ==> edges[k].src >= 0
    ensures Index(counts, g) == Before(edges, g)
  {
    if g == 0 {
      NoneBefore(edges);
    } else {
      IndexIsBefore(edges, counts, g - 1);
      BeforeNext(edges, g - 1);
    }
  }

  // So when the edges come sorted by source, every slice lies within the
  // source group its count came from.
  lemma SliceIsOneGroup(edges: seq<Edge>, counts: seq<nat>, items: seq<nat>, starts: seq<nat>, threshold: real, g: nat, j: nat, k: nat)
    requires BySource(edges) && Counted(counts, edges) && Index(counts, |counts|) == |edges|
    requires forall i :: 0 <= i < |edges| ==> edges[i].src >= 0
    requires SplitUpTo(items, starts, counts, threshold, |counts|) && Index(items, |items|) == |edges|
    requires g < |counts| && |starts| == |counts| + 1 && starts[g] <= j < starts[g + 1] && j < |items| && k < |Slice(edges, items, j)|
    ensures Slice(edges, items, j)[k].src / 512 == g
  {
    hide SplitUpTo, Counted, BySource, Before;
    SplitRange(items, starts, counts, threshold, g);
    IndexGrows(items, starts[g], j);
    IndexGrows(items, j + 1, starts[g + 1]);
    IndexIsBefore(edges, counts, g);
    IndexIsBefore(edges, counts, g + 1);
    IndexGrows(items, j + 1, |items|);
    assert Index(items, j + 1) == Index(items, j) + items[j];
    assert Slice(edges, items, j)[k] == edges[Index(items, j) + k];
    PlaceTellsGroup(edges, Index(items, j) + k, g);
  }

  lemma PlaceTellsGroup(edges: seq<Edge>, at: nat, g: int)
    requires BySource(edges) && at < |edges| && Before(edges, g) <= at < Before(edges, g + 1)
    ensures edges[at].src / 512 == g
  {
    SortedPlace(edges, at, g);
    SortedPlace(edges, at, g + 1);
  }

  // ---------------------------------------------------------------------
  // Writing one group of items.
  // ---------------------------------------------------------------------

  // What a group of items writes. The original stops with an index error when
  // its items have no edges at all.
  datatype Saved = File(records: seq<Edge>) | NoEdges

  ghost predicate WellSaved(s: Saved, n: nat) {
    if n == 0 then s.NoEdges? else s.File? && IsEdgeFile(s.records, n) && |s.records| - 1 == n + 16 + (16 - n % 16) % 16
  }

  function Content(s: Saved, n: nat): seq<Edge> {
    if s.File? then Records(s.records, n) else []
  }

  // The header that the sum gives is the number of records written.
  lemma HeaderIsCount(n: nat)
    ensures (n + 15) / 16 * 16 + 16 == n + (16 - n % 16) % 16 + 16
    ensures ((n + 15) / 16 * 16 + 16) % 16 == 0
  {
  }

  lemma GatherNext(s: seq<Block>, items: seq<nat>, group: seq<nat>, k: nat)
    requires |s| == |items| && k < |group| && forall i :: 0 <= i < |group| ==> group[i] < |items|
    ensures Edges(Pick(s, group[..k + 1])) == Edges(Pick(s, group[..k])) + multiset(s[group[k]])
    ensures Weight(items, group[..k + 1]) == Weight(items, group[..k]) + items[group[k]]
  {
    assert Pick(s, group[..k + 1]) == Pick(s, group[..k]) + [s[group[k]]];
    EdgesSnoc(Pick(s, group[..k]), s[group[k]]);
    assert group[..k + 1] == group[..k] + [group[k]];
    Snoc(items, group[..k], group[k]);
  }

  method Gather(group: seq<nat>, index: seq<nat>, edges: seq<Edge>, ghost items: seq<nat>) returns (merged: seq<Edge>)
    requires Index(items, |items|) == |edges| && |index| == |items| + 1 && forall j :: 0 <= j <= |items| ==> index[j] == Index(items, j)
    requires forall k :: 0 <= k < |group| ==> group[k] < |items|
    ensures multiset(merged) == Edges(Pick(Slices(edges, items, |items|), group)) && |merged| == Weight(items, group)
  {
    ghost var s := Slices(edges, items, |items|);
    merged := [];
    var k := 0;
    assert group[..0] == [] && Pick(s, []) == [];
    while k < |group|
      invariant 0 <= k <= |group|
      invariant multiset(merged) == Edges(Pick(s, group[..k])) && |merged| == Weight(items, group[..k])
    {
      hide Edges, Weight, Index;
      var temp := TakeSlice(group[k], index, edges, items);
      GatherNext(s, items, group, k);
      merged := merged + temp;
      k := k + 1;
    }
    assert group[..k] == group;
  }

  method TakeSlice(id: nat, index: seq<nat>, edges: seq<Edge>, ghost items: seq<nat>) returns (temp: seq<Edge>)
    requires Index(items, |items|) == |edges| && |index| == |items| + 1 && forall j :: 0 <= j <= |items| ==> index[j] == Index(items, j)
    requires id < |items|
    ensures temp == Slice(edges, items, id)
  {
    IndexGrows(items, id, id + 1);
    IndexGrows(items, id + 1, |items|);
    temp := edges[index[id]..index[id + 1]];
  }

  // The records of n sorted edges under the header made from their number.
  method Finish(sorted: seq<Edge>, sum: nat) returns (records: seq<Edge>)
    requires BySource(sorted) && |sorted| == sum > 0
    ensures IsEdgeFile(records, sum) && Records(records, sum) == sorted && |records| - 1 == sum + 16 + (16 - sum % 16) % 16
  {
    var header := (sum + 15) / 16 * 16 + 16;
    var dummies := (16 - |sorted| % 16) % 16 + 16;
    var padded := AppendDummies(sorted, dummies);
    HeaderIsCount(sum);
    records := [Edge(header, header)] + padded;
    assert records[1..] == padded && records[1..sum + 1] == sorted;
  }

  method ProcessGroup(group: seq<nat>, sum: nat, index: seq<nat>, edges: seq<Edge>, ghost items: seq<nat>) returns (s: Saved)
    requires Index(items, |items|) == |edges| && |index| == |items| + 1 && forall j :: 0 <= j <= |items| ==> index[j] == Index(items, j)
    requires (forall k :: 0 <= k < |group| ==> group[k] < |items|) && sum == Weight(items, group)
    ensures WellSaved(s, sum) && multiset(Content(s, sum)) == Edges(Pick(Slices(edges, items, |items|), group))
  {
    hide BySource, IsEdgeFile, Records, Index, Weight;
    var merged := Gather(group, index, edges, items);
    var sorted := SortBySource(merged);
    assert |multiset(sorted)| == |multiset(merged)|;
    if |sorted| == 0 { return NoEdges; }
    var records := Finish(sorted, sum);
    s := File(records);
  }

  method AppendDummies(sorted: seq<Edge>, num: nat) returns (padded: seq<Edge>)
    requires BySource(sorted) && sorted != []
    ensures BySource(padded) && |padded| == |sorted| + num && padded[..|sorted|] == sorted
    ensures forall k :: |sorted| <= k < |padded| ==> padded[k] == Edge(sorted[|sorted| - 1].src, DUMMY)
  {
    var last := sorted[|sorted| - 1].src;
    padded := sorted + seq(num, _ => Edge(last, DUMMY));
  }

  // ---------------------------------------------------------------------
  // The whole partition.
  // ---------------------------------------------------------------------

  // The items in descending order.
  method ArgSortDescending(items: seq<nat>) returns (ids: seq<nat>)
    ensures multiset(ids) == multiset(Count(|items|)) && forall k :: 0 <= k < |ids| ==> ids[k] < |items|
    ensures |ids| == |items| && R.Descending(Pick(items, ids))
  {
    var le := (i: nat, j: nat) => ItemAt(items, i) >= ItemAt(items, j);
    ids := Sort(Count(|items|), le);
    assert forall k :: 0 <= k < |ids| ==> ids[k] in ids;
    forall i, j | 0 <= i <= j < |ids| ensures items[ids[i]] >= items[ids[j]] { assert le(ids[i], ids[j]); }
  }

  function ItemAt(items: seq<nat>, i: nat): nat {
    if i < |items| then items[i] else 0
  }

  lemma {:induction false} WeightOfPick(items: seq<nat>, ids: seq<nat>, group: seq<nat>)
    requires (forall k :: 0 <= k < |ids| ==> ids[k] < |items|) && forall k :: 0 <= k < |group| ==> group[k] < |ids|
    ensures Weight(Pick(items, ids), group) == Weight(items, Pick(ids, group))
  {
    if group != [] {
      var n := |group| - 1;
      WeightOfPick(items, ids, group[..n]);
      assert Pick(ids, group)[..n] == Pick(ids, group[..n]);
    }
  }

  lemma {:induction false} TimesIsMultiset(group: seq<nat>, x: nat)
    ensures Times(group, x) == multiset(group)[x]
  {
    if group != [] {
      var n := |group| - 1;
      TimesIsMultiset(group[..n], x);
      assert group == group[..n] + [group[n]];
    }
  }

  lemma {:induction false} CountOnce(n: nat, x: nat)
    ensures multiset(Count(n))[x] == if x < n then 1 else 0
  {
    if n > 0 {
      CountOnce(n - 1, x);
      assert Count(n) == Count(n - 1) + [n - 1];
    }
  }

  // Every position once means a rearrangement of all of them.
  lemma OnceIsAll(groups: seq<seq<nat>>, n: nat)
    requires |groups| == PARTS && Once(groups, n)
    ensures multiset(groups[0] + groups[1] + groups[2] + groups[3]) == multiset(Count(n))
  {
    var all := groups[0] + groups[1] + groups[2] + groups[3];
    forall x: nat ensures multiset(all)[x] == multiset(Count(n))[x] {
      TimesIsMultiset(groups[0], x);
      TimesIsMultiset(groups[1], x);
      TimesIsMultiset(groups[2], x);
      TimesIsMultiset(groups[3], x);
      CountOnce(n, x);
      assert TimesIn(groups, x) == if x < n then 1 else 0;
    }
  }

  // The edges of the four groups together are all edges.
  lemma GroupsCover(s: seq<Block>, ids: seq<nat>, groups: seq<seq<nat>>)
    requires |ids| == |s| && multiset(ids) == multiset(Count(|s|)) && |groups| == PARTS && Once(groups, |s|) && Below(groups, |s|)
    requires forall k :: 0 <= k < |ids| ==> ids[k] < |s|
    ensures Edges(Pick(s, Pick(ids, groups[0]))) + Edges(Pick(s, Pick(ids, groups[1])))
            + Edges(Pick(s, Pick(ids, groups[2]))) + Edges(Pick(s, Pick(ids, groups[3]))) == Edges(s)
  {
    var all := groups[0] + groups[1] + groups[2] + groups[3];
    OnceIsAll(groups, |s|);
    PickPermutes(ids, Count(|s|), all);
    assert Pick(ids, Count(|s|)) == ids;
    PickPermutes(s, Count(|s|), Pick(ids, all));
    assert Pick(s, Count(|s|)) == s;
    EdgesOfMultiset(Pick(s, Pick(ids, all)), s);
    FourPicks(s, ids, groups);
  }

  lemma FourPicks(s: seq<Block>, ids: seq<nat>, groups: seq<seq<nat>>)
    requires |groups| == PARTS && Below(groups, |ids|) && forall k :: 0 <= k < |ids| ==> ids[k] < |s|
    ensures Edges(Pick(s, Pick(ids, groups[0] + groups[1] + groups[2] + groups[3]))) ==
            Edges(Pick(s, Pick(ids, groups[0]))) + Edges(Pick(s, Pick(ids, groups[1])))
            + Edges(Pick(s, Pick(ids, groups[2]))) + Edges(Pick(s, Pick(ids, groups[3])))
  {
    var a, b, c, d := Pick(s, Pick(ids, groups[0])), Pick(s, Pick(ids, groups[1])), Pick(s, Pick(ids, groups[2])), Pick(s, Pick(ids, groups[3]));
    assert Pick(s, Pick(ids, groups[0] + groups[1] + groups[2] + groups[3])) == a + b + c + d;
    EdgesConcat(a + b + c, d);
    EdgesConcat(a + b, c);
    EdgesConcat(a, b);
  }

  lemma SpreadOfItems(items: seq<nat>, ids: seq<nat>, sums0: seq<nat>, sums: seq<nat>, n: nat)
    requires items != [] && |ids| == |items| && forall k :: 0 <= k < |ids| ==> ids[k] < |items|
    requires R.Spread(sums0, Pick(items, ids)[0]) && CloserBy(sums0, sums, n)
    ensures R.Spread(sums, Largest(items)) && n <= Largest(items)
  {
    assert R.Spread(sums0, Largest(items));
  }

  // Dealt out in batches of four, then balanced until no move is left or 100000
  // are made.
  ghost predicate Balanced(sizes: seq<nat>, dealt: seq<State>, trace: seq<State>, t: State) {
    && Batches(sizes, dealt) && Rounds(sizes, trace) && trace[0] == dealt[|dealt| - 1] && trace[|trace| - 1] == t
    && |trace| - 1 <= 100000 && (|trace| - 1 < 100000 ==> Settled(sizes, t))
  }

  // How the items are dealt out: in descending order, each to one group, and no
  // move of the balancing loop is left to make (with 100000 iterations, as long
  // as no item is that large).
  ghost predicate DealtOut(items: seq<nat>, ids: seq<nat>, groups: seq<seq<nat>>, sums: seq<nat>) {
    && items != [] && multiset(ids) == multiset(Count(|items|)) && |ids| == |items| && (forall k :: 0 <= k < |ids| ==> ids[k] < |items|)
    && Grouping(Pick(items, ids), groups, sums, |items|)
    && R.Spread(sums, Largest(items))
    && R.Descending(Pick(items, ids)) && (exists dealt, trace :: Balanced(Pick(items, ids), dealt, trace, State(groups, sums)))
    && (Largest(items) < 100000 ==> Settled(Pick(items, ids), State(groups, sums)))
  }

  // The items dealt out to four groups and balanced.
  method Deal(items: seq<nat>) returns (ids: seq<nat>, groups: seq<seq<nat>>, sums: seq<nat>)
    requires items != []
    ensures DealtOut(items, ids, groups, sums)
  {
    ids := ArgSortDescending(items);
    var sums0;
    ghost var dealt, trace;
    groups, sums0, dealt := Assign(Pick(items, ids));
    hide Settled, CloserBy, Grouping, Rounds, Batches;
    groups, sums, trace := Balance(Pick(items, ids), groups, sums0, 100000);
    SpreadOfItems(items, ids, sums0, sums, |trace| - 1);
    assert Balanced(Pick(items, ids), dealt, trace, State(groups, sums));
  }

  lemma SomeItems(counts: seq<nat>, items: seq<nat>, starts: seq<nat>, threshold: real)
    requires counts != [] && SplitUpTo(items, starts, counts, threshold, |counts|)
    ensures items != [] && Index(items, |items|) == Index(counts, |counts|)
  {
    assert SplitAt(items, starts[0], starts[1], counts[0], threshold);
  }

  // The four results together.
  lemma AllSaved(saved: seq<Saved>, sums: seq<nat>, edges: seq<Edge>, items: seq<nat>, ids: seq<nat>, groups: seq<seq<nat>>)
    requires |saved| == |sums| == PARTS && Index(items, |items|) == |edges|
    requires |ids| == |items| && multiset(ids) == multiset(Count(|items|)) && forall k :: 0 <= k < |ids| ==> ids[k] < |items|
    requires |groups| == PARTS && Once(groups, |items|) && Below(groups, |items|)
    requires forall g :: 0 <= g < PARTS ==> Wrote(saved[g], sums[g], Slices(edges, items, |items|), Pick(ids, groups[g]))
    ensures multiset(Content(saved[0], sums[0])) + multiset(Content(saved[1], sums[1]))
            + multiset(Content(saved[2], sums[2])) + multiset(Content(saved[3], sums[3])) == multiset(edges)
  {
    GroupsCover(Slices(edges, items, |items|), ids, groups);
    SlicesCover(edges, items, |items|);
    assert edges[..|edges|] == edges;
  }

  // One partition: the edges of each source group are counted, large counts are
  // split, the items dealt out to four groups, and each group written from its
  // slices of the edges. The four files (or index errors) hold every edge once,
  // each header counts the records of its file, and no two files differ by more
  // edges than the largest item has.
  method PartitionGroups(edges: seq<Edge>)
    returns (saved: seq<Saved>, sums: seq<nat>, ghost counts: seq<nat>, ghost items: seq<nat>, ghost starts: seq<nat>,
             ghost ids: seq<nat>, ghost groups: seq<seq<nat>>)
    requires edges != [] && forall k :: 0 <= k < |edges| ==> edges[k].src >= 0
    ensures Counted(counts, edges) && counts != [] && counts[|counts| - 1] > 0
    ensures ItemsOf(items, starts, counts) && DealtOut(items, ids, groups, sums)
    ensures Index(items, |items|) == |edges|
    ensures |saved| == PARTS && forall g :: 0 <= g < PARTS ==> Wrote(saved[g], sums[g], Slices(edges, items, |items|), Pick(ids, groups[g]))
    ensures multiset(Content(saved[0], sums[0])) + multiset(Content(saved[1], sums[1]))
            + multiset(Content(saved[2], sums[2])) + multiset(Content(saved[3], sums[3])) == multiset(edges)
  {
    hide SplitUpTo, Index, Counted, WellSaved, R.Spread, Once, Wrote, ItemsOf, Settled;
    var c := BinCount(edges);
    counts := c;
    var sizes;
    sizes, starts := SplitCounts(c, Threshold(c));
    items := sizes;
    SplitIsItems(items, starts, counts);
    SomeItems(counts, items, starts, Threshold(counts));
    var index := CumSum(sizes);
    var order, dealt;
    order, dealt, sums := Deal(sizes);
    ids, groups := order, dealt;
    saved := SaveGroups(dealt, sums, order, index, edges, items);
    AllSaved(saved, sums, edges, items, ids, groups);
  }

  // What one group of items has to write.
  ghost predicate Wrote(s: Saved, sum: nat, slices: seq<Block>, group: seq<nat>) {
    && WellSaved(s, sum) && (forall k :: 0 <= k < |group| ==> group[k] < |slices|)
    && multiset(Content(s, sum)) == Edges(Pick(slices, group))
  }

  method SaveOne(group: seq<nat>, sum: nat, ids: seq<nat>, index: seq<nat>, edges: seq<Edge>, ghost items: seq<nat>) returns (s: Saved)
    requires Index(items, |items|) == |edges| && |index| == |items| + 1 && forall j :: 0 <= j <= |items| ==> index[j] == Index(items, j)
    requires |ids| == |items| && forall k :: 0 <= k < |ids| ==> ids[k] < |items|
    requires (forall k :: 0 <= k < |group| ==> group[k] < |items|) && sum == Weight(Pick(items, ids), group)
    ensures Wrote(s, sum, Slices(edges, items, |items|), Pick(ids, group))
  {
    hide WellSaved;
    WeightOfPick(items, ids, group);
    s := ProcessGroup(Pick(ids, group), sum, index, edges, items);
  }

  method SaveGroups(groups: seq<seq<nat>>, sums: seq<nat>, ids: seq<nat>, index: seq<nat>, edges: seq<Edge>, ghost items: seq<nat>)
    returns (saved: seq<Saved>)
    requires Index(items, |items|) == |edges| && |index| == |items| + 1 && forall j :: 0 <= j <= |items| ==> index[j] == Index(items, j)
    requires |ids| == |items| && (forall k :: 0 <= k < |ids| ==> ids[k] < |items|) && Grouping(Pick(items, ids), groups, sums, |items|)
    ensures |saved| == PARTS
    ensures forall g :: 0 <= g < PARTS ==> Wrote(saved[g], sums[g], Slices(edges, items, |items|), Pick(ids, groups[g]))
  {
    hide Wrote;
    saved := [];
    var i := 0;
    while i < PARTS
      invariant 0 <= i <= PARTS && |saved| == i
      invariant forall g :: 0 <= g < i ==> Wrote(saved[g], sums[g], Slices(edges, items, |items|), Pick(ids, groups[g]))
    {
      var s := SaveOne(groups[i], sums[i], ids, index, edges, items);
      saved := saved + [s];
      i := i + 1;
    }
  }
}
