/**
 * The Python partitioner (`input_aware.py`): vertex groups, largest first, are
 * dealt out four at a time, the largest of a batch to the smallest sum; then
 * single groups move from the largest sum to the smallest while that helps.
 */
module Rebalance {
  const PARTS := 4

  function Weight(sizes: seq<nat>, group: seq<nat>): nat
    requires forall k :: 0 <= k < |group| ==> group[k] < |sizes|
  {
    if group == [] then 0 else Weight(sizes, group[..|group| - 1]) + sizes[group[|group| - 1]]
  }

  function Times(group: seq<nat>, x: nat): nat {
    if group == [] then 0 else Times(group[..|group| - 1], x) + (if group[|group| - 1] == x then 1 else 0)
  }

  lemma Snoc(sizes: seq<nat>, group: seq<nat>, x: nat)
    requires x < |sizes| && forall k :: 0 <= k < |group| ==> group[k] < |sizes|
    ensures Weight(sizes, group + [x]) == Weight(sizes, group) + sizes[x]
  {
    assert (group + [x])[..|group|] == group;
  }

  lemma TimesSnoc(group: seq<nat>, x: nat, y: nat)
    ensures Times(group + [x], y) == Times(group, y) + (if x == y then 1 else 0)
  {
    assert (group + [x])[..|group|] == group;
  }

  function TimesIn(groups: seq<seq<nat>>, x: nat): nat
    requires |groups| == PARTS
  {
    Times(groups[0], x) + Times(groups[1], x) + Times(groups[2], x) + Times(groups[3], x)
  }

  ghost predicate Below(groups: seq<seq<nat>>, n: nat) {
    forall g, k :: 0 <= g < |groups| && 0 <= k < |groups[g]| ==> groups[g][k] < n
  }

  // Each of the first n items is in exactly one group.
  ghost predicate Once(groups: seq<seq<nat>>, n: nat)
    requires |groups| == PARTS
  {
    forall x: nat :: TimesIn(groups, x) == if x < n then 1 else 0
  }

  // The first n items are each in one group, and the sums are right.
  ghost predicate Grouping(sizes: seq<nat>, groups: seq<seq<nat>>, sums: seq<nat>, n: nat) {
    && |groups| == |sums| == PARTS && n <= |sizes| && Below(groups, n) && Once(groups, n)
    && (forall g :: 0 <= g < PARTS ==> sums[g] == Weight(sizes, groups[g]))
  }

  ghost predicate Spread(sums: seq<nat>, m: nat) {
    forall g, h :: 0 <= g < |sums| && 0 <= h < |sums| ==> sums[g] - sums[h] <= m
  }

  ghost predicate Descending(sizes: seq<nat>) {
    forall i, j :: 0 <= i <= j < |sizes| ==> sizes[i] >= sizes[j]
  }

  // The groups in ascending order of their sums.
  ghost predicate Ascending(order: seq<nat>, sums: seq<nat>) {
    && |order| == |sums| == PARTS && (forall i :: 0 <= i < PARTS ==> order[i] < PARTS)
    && (forall i, j :: 0 <= i < j < PARTS ==> order[i] != order[j] && sums[order[i]] <= sums[order[j]])
  }

  // The first n groups in ascending order.
  ghost predicate Sorted(order: seq<nat>, sums: seq<nat>, n: nat) {
    && |order| == n <= |sums| && (forall i :: 0 <= i < n ==> order[i] < n)
    && forall i, j :: 0 <= i < j < n ==> order[i] != order[j] && sums[order[i]] <= sums[order[j]]
  }

  function InsertAt(sums: seq<nat>, order: seq<nat>, at: nat, g: nat): (r: seq<nat>)
    requires Sorted(order, sums, g) && g < |sums| && at <= |order|
    requires forall i :: 0 <= i < at ==> sums[order[i]] <= sums[g]
    requires at < |order| ==> sums[g] <= sums[order[at]]
    ensures Sorted(r, sums, g + 1)
  {
    order[..at] + [g] + order[at..]
  }

  method ArgSort(sums: seq<nat>) returns (order: seq<nat>)
    requires |sums| == PARTS
    ensures Ascending(order, sums)
  {
    order := [];
    var g := 0;
    while g < PARTS
      invariant 0 <= g <= PARTS && Sorted(order, sums, g)
    {
      var at := 0;
      while at < |order| && sums[order[at]] <= sums[g]
        invariant 0 <= at <= |order| && forall i :: 0 <= i < at ==> sums[order[i]] <= sums[g]
      {
        at := at + 1;
      }
      order := InsertAt(sums, order, at, g);
      g := g + 1;
    }
  }

  lemma AddOne(groups: seq<seq<nat>>, g: nat, x: nat, y: nat)
    requires |groups| == PARTS && g < PARTS
    ensures TimesIn(groups[g := groups[g] + [x]], y) == TimesIn(groups, y) + (if x == y then 1 else 0)
  {
    TimesSnoc(groups[g], x, y);
    if g == 0 {} else if g == 1 {} else if g == 2 {} else {}
  }

  // Item x goes to group g.
  lemma AddKeeps(sizes: seq<nat>, groups: seq<seq<nat>>, sums: seq<nat>, x: nat, g: nat)
    requires Grouping(sizes, groups, sums, x) && x < |sizes| && g < PARTS
    ensures Grouping(sizes, groups[g := groups[g] + [x]], sums[g := sums[g] + sizes[x]], x + 1)
  {
    Snoc(sizes, groups[g], x);
    var groups' := groups[g := groups[g] + [x]];
    forall y: nat ensures TimesIn(groups', y) == if y < x + 1 then 1 else 0 { AddOne(groups, g, x, y); }
  }

  // The groups, by the places of their items, and their sums.
  datatype State = State(groups: seq<seq<nat>>, sums: seq<nat>)

  // The sums after the first i items of a batch.
  ghost predicate BatchSums(sums0: seq<nat>, sums: seq<nat>, order: seq<nat>, batch: seq<nat>, i: nat) {
    && i <= |batch| <= PARTS && |sums| == |sums0| == PARTS && Ascending(order, sums0)
    && forall k :: 0 <= k < PARTS ==> sums[order[k]] == sums0[order[k]] + (if k < i then batch[k] else 0)
  }

  // The largest item on the smallest sum keeps the sums together.
  lemma BatchKeepsSpread(sums0: seq<nat>, sums: seq<nat>, order: seq<nat>, batch: seq<nat>, m: nat)
    requires BatchSums(sums0, sums, order, batch, |batch|) && Spread(sums0, m)
    requires forall i, j :: 0 <= i <= j < |batch| ==> m >= batch[i] >= batch[j]
    ensures Spread(sums, m)
  {
    forall g, h | 0 <= g < PARTS && 0 <= h < PARTS ensures sums[g] - sums[h] <= m {
      var i := PlaceOf(order, sums0, g);
      var j := PlaceOf(order, sums0, h);
      assert sums0[order[i]] - sums0[order[j]] <= m;
    }
  }

  lemma PlaceOf(order: seq<nat>, sums: seq<nat>, g: nat) returns (i: nat)
    requires Ascending(order, sums) && g < PARTS
    ensures i < PARTS && order[i] == g
  {
    if order[0] == g { i := 0; } else if order[1] == g { i := 1; } else if order[2] == g { i := 2; } else { i := 3; }
  }

  // Item x goes to the i-th smallest group of its batch.
  method AddItem(sizes: seq<nat>, x: nat, g: nat, groups: seq<seq<nat>>, sums: seq<nat>) returns (groups': seq<seq<nat>>, sums': seq<nat>)
    requires Grouping(sizes, groups, sums, x) && x < |sizes| && g < PARTS
    ensures Grouping(sizes, groups', sums', x + 1)
    ensures groups' == groups[g := groups[g] + [x]] && sums' == sums[g := sums[g] + sizes[x]]
  {
    AddKeeps(sizes, groups, sums, x, g);
    groups' := groups[g := groups[g] + [x]];
    sums' := sums[g := sums[g] + sizes[x]];
  }

  lemma BatchStep(sums0: seq<nat>, sums: seq<nat>, order: seq<nat>, batch: seq<nat>, i: nat)
    requires BatchSums(sums0, sums, order, batch, i) && i < |batch|
    ensures BatchSums(sums0, sums[order[i] := sums[order[i]] + batch[i]], order, batch, i + 1)
  {
  }

  // Of a batch of items from x on, the k-th is with the group that had the
  // k-th smallest sum, for the first i of them.
  ghost predicate BatchTo(sizes: seq<nat>, s: State, x: nat, order: seq<nat>, i: nat, t: State) {
    && i <= 4 && x + i <= |sizes| && |s.groups| == |t.groups| == |t.sums| == 4 && Ascending(order, s.sums)
    && forall k :: 0 <= k < 4 ==>
         && t.groups[order[k]] == s.groups[order[k]] + (if k < i then [x + k] else [])
         && t.sums[order[k]] == s.sums[order[k]] + if k < i then sizes[x + k] else 0
  }

  ghost predicate Batch(sizes: seq<nat>, s: State, x: nat, count: nat, t: State) {
    exists order :: BatchTo(sizes, s, x, order, count, t)
  }

  // The items in batches of four from the first on, and what is left over.
  ghost predicate Batches(sizes: seq<nat>, dealt: seq<State>) {
    && |dealt| == |sizes| / 4 + 2 && dealt[0] == State([[], [], [], []], [0, 0, 0, 0])
    && (forall i :: 0 <= i < |sizes| / 4 ==> Batch(sizes, dealt[i], 4 * i, 4, dealt[i + 1]))
    && Batch(sizes, dealt[|sizes| / 4], |sizes| - |sizes| % 4, |sizes| % 4, dealt[|sizes| / 4 + 1])
  }

  // The whole batches among the first n.
  ghost predicate FirstBatches(sizes: seq<nat>, dealt: seq<State>, n: nat) {
    && |dealt| == n + 1 && dealt[0] == State([[], [], [], []], [0, 0, 0, 0])
    && forall i :: 0 <= i < n ==> Batch(sizes, dealt[i], 4 * i, 4, dealt[i + 1])
  }

  lemma OneMoreBatch(sizes: seq<nat>, dealt: seq<State>, n: nat, t: State)
    requires FirstBatches(sizes, dealt, n) && Batch(sizes, dealt[n], 4 * n, 4, t)
    ensures FirstBatches(sizes, dealt + [t], n + 1)
  {
    hide Batch;
  }

  lemma LastBatch(sizes: seq<nat>, dealt: seq<State>, t: State)
    requires FirstBatches(sizes, dealt, |sizes| / 4)
    requires Batch(sizes, dealt[|sizes| / 4], |sizes| - |sizes| % 4, |sizes| % 4, t)
    ensures Batches(sizes, dealt + [t])
  {
    hide Batch;
  }

  lemma BatchItem(sizes: seq<nat>, s: State, x: nat, order: seq<nat>, i: nat, t: State)
    requires BatchTo(sizes, s, x, order, i, t) && i < 4 && x + i < |sizes|
    ensures var g := order[i];
            BatchTo(sizes, s, x, order, i + 1, State(t.groups[g := t.groups[g] + [x + i]], t.sums[g := t.sums[g] + sizes[x + i]]))
  {
    var g := order[i];
    assert t.groups[g] + [x + i] == s.groups[g] + [x + i];
  }

  lemma BatchBegins(sizes: seq<nat>, s: State, x: nat, order: seq<nat>)
    requires x <= |sizes| && |s.groups| == 4 && Ascending(order, s.sums)
    ensures BatchTo(sizes, s, x, order, 0, s)
  {
  }

  lemma GroupingShape(sizes: seq<nat>, groups: seq<seq<nat>>, sums: seq<nat>, n: nat)
    requires Grouping(sizes, groups, sums, n)
    ensures |groups| == |sums| == 4 && n <= |sizes|
  {
  }

  lemma AscendingShape(order: seq<nat>, sums: seq<nat>)
    requires Ascending(order, sums)
    ensures |order| == 4 && forall i :: 0 <= i < 4 ==> order[i] < 4
  {
  }

  // One batch of up to four items from x on.
  method AssignBatch(sizes: seq<nat>, x: nat, count: nat, groups0: seq<seq<nat>>, sums0: seq<nat>, ghost m: nat)
    returns (groups: seq<seq<nat>>, sums: seq<nat>)
    requires Grouping(sizes, groups0, sums0, x) && count <= PARTS && x + count <= |sizes|
    requires Descending(sizes) && (forall k :: 0 <= k < |sizes| ==> sizes[k] <= m) && Spread(sums0, m)
    ensures Grouping(sizes, groups, sums, x + count) && Spread(sums, m)
    ensures Batch(sizes, State(groups0, sums0), x, count, State(groups, sums))
  {
    hide Grouping, Spread, BatchTo, Ascending;
    groups, sums := groups0, sums0;
    GroupingShape(sizes, groups, sums, x);
    var order := ArgSort(sums);
    AscendingShape(order, sums);
    ghost var s, batch := State(groups0, sums0), sizes[x..x + count];
    BatchBegins(sizes, s, x, order);
    var idx := 0;
    while idx < count
      invariant 0 <= idx <= count
      invariant Grouping(sizes, groups, sums, x + idx)
      invariant BatchSums(sums0, sums, order, batch, idx) && BatchTo(sizes, s, x, order, idx, State(groups, sums))
    {
      BatchStep(sums0, sums, order, batch, idx);
      BatchItem(sizes, s, x, order, idx, State(groups, sums));
      groups, sums := AddItem(sizes, x + idx, order[idx], groups, sums);
      idx := idx + 1;
    }
    BatchKeepsSpread(sums0, sums, order, batch, m);
  }

  lemma NothingDealt(sizes: seq<nat>, m: nat)
    ensures Grouping(sizes, [[], [], [], []], [0, 0, 0, 0], 0) && Spread([0, 0, 0, 0], m)
  {
  }

  // All items, four at a time: each in one group, and no two sums further
  // apart than the largest item.
  method Assign(sizes: seq<nat>) returns (groups: seq<seq<nat>>, sums: seq<nat>, ghost dealt: seq<State>)
    requires Descending(sizes)
    ensures Batches(sizes, dealt) && dealt[|dealt| - 1] == State(groups, sums)
    ensures Grouping(sizes, groups, sums, |sizes|)
    ensures Spread(sums, if sizes == [] then 0 else sizes[0])
  {
    groups, sums := [[], [], [], []], [0, 0, 0, 0];
    ghost var m := if sizes == [] then 0 else sizes[0];
    NothingDealt(sizes, m);
    dealt := [State(groups, sums)];
    hide Grouping, Spread, Batch;
    var aligned := |sizes| / PARTS * PARTS;
    var start := 0;
    while start < aligned
      invariant 0 <= start <= aligned && start % PARTS == 0
      invariant Grouping(sizes, groups, sums, start) && Spread(sums, m)
      invariant FirstBatches(sizes, dealt, start / 4) && dealt[start / 4] == State(groups, sums)
    {
      groups, sums := AssignBatch(sizes, start, PARTS, groups, sums, m);
      OneMoreBatch(sizes, dealt, start / 4, State(groups, sums));
      dealt := dealt + [State(groups, sums)];
      start := start + PARTS;
    }
    groups, sums := AssignBatch(sizes, aligned, |sizes| - aligned, groups, sums, m);
    LastBatch(sizes, dealt, State(groups, sums));
    dealt := dealt + [State(groups, sums)];
  }

  // ---------------------------------------------------------------------
  // Moving groups.
  // ---------------------------------------------------------------------

  // The first of the largest sums and the first of the smallest.
  ghost predicate Extreme(sums: seq<nat>, hi: nat, lo: nat) {
    && |sums| == 4 && hi < 4 && lo < 4
    && (forall g :: 0 <= g < 4 ==> sums[lo] <= sums[g] <= sums[hi])
    && (forall g :: 0 <= g < hi ==> sums[g] < sums[hi]) && (forall g :: 0 <= g < lo ==> sums[lo] < sums[g])
  }

  method Extremes(sums: seq<nat>) returns (hi: nat, lo: nat)
    requires |sums| == PARTS
    ensures Extreme(sums, hi, lo)
  {
    hi, lo := 0, 0;
    var g := 1;
    while g < PARTS
      invariant 1 <= g <= PARTS && hi < g && lo < g
      invariant forall h :: 0 <= h < g ==> sums[lo] <= sums[h] <= sums[hi]
      invariant (forall h :: 0 <= h < hi ==> sums[h] < sums[hi]) && (forall h :: 0 <= h < lo ==> sums[lo] < sums[h])
    {
      if sums[g] > sums[hi] { hi := g; }
      if sums[g] < sums[lo] { lo := g; }
      g := g + 1;
    }
  }

  function SpreadOf(sums: seq<nat>, hi: nat, lo: nat): int
    requires hi < |sums| && lo < |sums|
  {
    sums[hi] as int - sums[lo] as int
  }

  lemma MoveOnce(groups: seq<seq<nat>>, hi: nat, lo: nat, y: nat)
    requires |groups| == PARTS && hi < PARTS && lo < PARTS && hi != lo && groups[hi] != []
    ensures var n := |groups[hi]| - 1;
            TimesIn(groups[hi := groups[hi][..n]][lo := groups[lo] + [groups[hi][n]]], y) == TimesIn(groups, y)
  {
    var n, x := |groups[hi]| - 1, groups[hi][|groups[hi]| - 1];
    TimesSnoc(groups[lo], x, y);
    if hi == 0 {} else if hi == 1 {} else if hi == 2 {} else {}
    if lo == 0 {} else if lo == 1 {} else if lo == 2 {} else {}
  }

  // The last item of one group goes to another.
  lemma MoveKeeps(sizes: seq<nat>, groups: seq<seq<nat>>, sums: seq<nat>, hi: nat, lo: nat)
    requires Grouping(sizes, groups, sums, |sizes|) && hi < PARTS && lo < PARTS && hi != lo && groups[hi] != []
    ensures var n := |groups[hi]| - 1;
            var x := groups[hi][n];
            && sums[hi] >= sizes[x]
            && Grouping(sizes, groups[hi := groups[hi][..n]][lo := groups[lo] + [x]],
                        sums[hi := sums[hi] - sizes[x]][lo := sums[lo] + sizes[x]], |sizes|)
  {
    var n := |groups[hi]| - 1;
    var x := groups[hi][n];
    Snoc(sizes, groups[lo], x);
    var groups' := groups[hi := groups[hi][..n]][lo := groups[lo] + [x]];
    forall y: nat ensures TimesIn(groups', y) == if y < |sizes| then 1 else 0 { MoveOnce(groups, hi, lo, y); }
  }

  lemma NotLevel(sums: seq<nat>, avg: nat, hi: nat, lo: nat)
    requires |sums| == PARTS && hi < PARTS && lo < PARTS && forall g :: 0 <= g < PARTS ==> sums[lo] <= sums[g] <= sums[hi]
    requires avg == (sums[0] + sums[1] + sums[2] + sums[3]) / PARTS && 10 * sums[hi] > 11 * avg
    ensures hi != lo && sums[hi] > 0
  {
    var a, b, c, d, x, y := sums[0], sums[1], sums[2], sums[3], sums[hi], sums[lo];
    assert y <= a <= x && y <= b <= x && y <= c <= x && y <= d <= x;
    assert x == y ==> a + b + c + d == 4 * x;
  }

  lemma Closer(sums: seq<nat>, hi: nat, lo: nat, sums': seq<nat>, hi': nat, lo': nat)
    requires |sums| == |sums'| == PARTS && hi < PARTS && lo < PARTS && hi' < PARTS && lo' < PARTS
    requires forall g :: 0 <= g < PARTS ==> sums'[lo'] <= sums'[g] <= sums'[hi']
    requires SpreadOf(sums', hi', lo') < SpreadOf(sums, hi, lo)
    ensures forall m: nat :: Spread(sums, m) ==> m > 0 && Spread(sums', m - 1)
  {
    forall m: nat | Spread(sums, m) ensures m > 0 && Spread(sums', m - 1) {
      assert sums[hi] - sums[lo] <= m;
    }
  }

  // The new sums are strictly closer together than the old ones.
  ghost predicate Better(sums: seq<nat>, sums': seq<nat>) {
    forall m: nat :: Spread(sums, m) ==> m > 0 && Spread(sums', m - 1)
  }

  // ----- what a round does -----

  ghost predicate CanMove(sizes: seq<nat>, s: State, hi: nat, lo: nat) {
    && |s.groups| == |s.sums| == 4 && hi < 4 && lo < 4 && hi != lo && s.groups[hi] != []
    && s.groups[hi][|s.groups[hi]| - 1] < |sizes|
    && sizes[s.groups[hi][|s.groups[hi]| - 1]] <= s.sums[hi]
  }

  // The last item of group hi is in group lo.
  ghost function Moved(sizes: seq<nat>, s: State, hi: nat, lo: nat): State
    requires CanMove(sizes, s, hi, lo)
  {
    var n := |s.groups[hi]| - 1;
    var x := s.groups[hi][n];
    State(s.groups[hi := s.groups[hi][..n]][lo := s.groups[lo] + [x]],
          s.sums[hi := s.sums[hi] - sizes[x]][lo := s.sums[lo] + sizes[x]])
  }

  // The largest sum is more than 1.1 times the average, rounded down.
  ghost predicate TooLarge(sums: seq<nat>, hi: nat)
    requires |sums| == 4 && hi < 4
  {
    10 * sums[hi] > 11 * ((sums[0] + sums[1] + sums[2] + sums[3]) / 4)
  }

  // A round that moves: the largest sum is too large, and moving the last item
  // of the first largest group to the first smallest lowers the spread.
  ghost predicate Improves(sizes: seq<nat>, s: State, t: State) {
    exists hi: nat, lo: nat :: Extreme(s.sums, hi, lo) && CanMove(sizes, s, hi, lo) && TooLarge(s.sums, hi)
                               && t == Moved(sizes, s, hi, lo) && Better(s.sums, t.sums)
  }

  // A round that ends the loop: the largest sum is not too large, or that move
  // does not lower the spread.
  ghost predicate Settled(sizes: seq<nat>, s: State) {
    exists hi: nat, lo: nat :: Extreme(s.sums, hi, lo)
                               && (!TooLarge(s.sums, hi)
                                   || (CanMove(sizes, s, hi, lo) && !Better(s.sums, Moved(sizes, s, hi, lo).sums)))
  }

  lemma NotCloser(sums: seq<nat>, hi: nat, lo: nat, sums': seq<nat>, hi': nat, lo': nat)
    requires Extreme(sums, hi, lo) && Extreme(sums', hi', lo') && SpreadOf(sums', hi', lo') >= SpreadOf(sums, hi, lo)
    ensures !Better(sums, sums')
  {
    var m: nat := sums[hi] - sums[lo];
    assert Spread(sums, m) by {
      forall g, h | 0 <= g < 4 && 0 <= h < 4 ensures sums[g] - sums[h] <= m {
        assert sums[lo] <= sums[g] <= sums[hi] && sums[lo] <= sums[h] <= sums[hi];
      }
    }
    assert sums'[hi'] - sums'[lo'] > m - 1;
  }

  lemma SumMoved(sums: seq<nat>, hi: nat, lo: nat, d: nat)
    requires |sums| == PARTS && hi < PARTS && lo < PARTS && hi != lo && d <= sums[hi]
    ensures var s := sums[hi := sums[hi] - d][lo := sums[lo] + d];
            s[0] + s[1] + s[2] + s[3] == sums[0] + sums[1] + sums[2] + sums[3]
  {
  }

  lemma LastMoves(sizes: seq<nat>, groups: seq<seq<nat>>, sums: seq<nat>, hi: nat, lo: nat)
    requires Grouping(sizes, groups, sums, |sizes|) && hi < PARTS && lo < PARTS && hi != lo && sums[hi] > 0
    ensures CanMove(sizes, State(groups, sums), hi, lo)
    ensures var t := Moved(sizes, State(groups, sums), hi, lo);
            && Grouping(sizes, t.groups, t.sums, |sizes|)
            && t.sums[0] + t.sums[1] + t.sums[2] + t.sums[3] == sums[0] + sums[1] + sums[2] + sums[3]
  {
    MoveKeeps(sizes, groups, sums, hi, lo);
    hide Grouping;
    SumMoved(sums, hi, lo, sizes[groups[hi][|groups[hi]| - 1]]);
  }

  method MoveLast(sizes: seq<nat>, groups: seq<seq<nat>>, sums: seq<nat>, hi: nat, lo: nat)
    returns (groups': seq<seq<nat>>, sums': seq<nat>)
    requires Grouping(sizes, groups, sums, |sizes|) && hi < PARTS && lo < PARTS && hi != lo && sums[hi] > 0
    ensures Grouping(sizes, groups', sums', |sizes|)
    ensures sums'[0] + sums'[1] + sums'[2] + sums'[3] == sums[0] + sums[1] + sums[2] + sums[3]
    ensures CanMove(sizes, State(groups, sums), hi, lo) && State(groups', sums') == Moved(sizes, State(groups, sums), hi, lo)
  {
    hide Grouping;
    LastMoves(sizes, groups, sums, hi, lo);
    var n := |groups[hi]| - 1;
    var last := groups[hi][n];
    var d := sizes[last];
    sums' := sums[hi := sums[hi] - d][lo := sums[lo] + d];
    groups' := groups[hi := groups[hi][..n]][lo := groups[lo] + [last]];
    assert State(groups', sums') == Moved(sizes, State(groups, sums), hi, lo);
  }

  // One round: the last item of the largest group goes to the smallest if that
  // brings the extremes closer together.
  method TryMove(sizes: seq<nat>, groups0: seq<seq<nat>>, sums0: seq<nat>, avg: nat) returns (moved: bool, groups: seq<seq<nat>>, sums: seq<nat>)
    requires Grouping(sizes, groups0, sums0, |sizes|)
    requires avg == (sums0[0] + sums0[1] + sums0[2] + sums0[3]) / PARTS
    ensures Grouping(sizes, groups, sums, |sizes|)
    ensures sums[0] + sums[1] + sums[2] + sums[3] == sums0[0] + sums0[1] + sums0[2] + sums0[3]
    ensures moved ==> Improves(sizes, State(groups0, sums0), State(groups, sums))
    ensures !moved ==> groups == groups0 && sums == sums0 && Settled(sizes, State(groups, sums))
  {
    moved, groups, sums := false, groups0, sums0;
    var hi, lo := Extremes(sums0);
    if 10 * sums0[hi] <= 11 * avg { return; }
    NotLevel(sums0, avg, hi, lo);
    var groups', sums' := MoveLast(sizes, groups0, sums0, hi, lo);
    hide Grouping, Better, Moved;
    var hi', lo' := Extremes(sums');
    if SpreadOf(sums', hi', lo') < SpreadOf(sums0, hi, lo) {
      Closer(sums0, hi, lo, sums', hi', lo');
      moved, groups, sums := true, groups', sums';
    } else {
      NotCloser(sums0, hi, lo, sums', hi', lo');
    }
  }

  // Every round of the trace moves.
  ghost predicate Rounds(sizes: seq<nat>, trace: seq<State>) {
    trace != [] && forall i :: 0 <= i < |trace| - 1 ==> Improves(sizes, trace[i], trace[i + 1])
  }

  // Sums that have come closer by n.
  ghost predicate CloserBy(sums: seq<nat>, sums': seq<nat>, n: nat) {
    forall m: nat :: Spread(sums, m) ==> m >= n && Spread(sums', m - n)
  }

  lemma CloserStill(a: seq<nat>, b: seq<nat>, c: seq<nat>, n: nat)
    requires CloserBy(a, b, n) && Better(b, c)
    ensures CloserBy(a, c, n + 1)
  {
    forall m: nat | Spread(a, m) ensures m >= n + 1 && Spread(c, m - n - 1) {
      assert Spread(b, m - n);
    }
  }

  lemma NextRound(sizes: seq<nat>, trace: seq<State>, t: State)
    requires Rounds(sizes, trace) && Improves(sizes, trace[|trace| - 1], t)
    ensures Rounds(sizes, trace + [t])
  {
    hide Improves;
  }

  // The loop makes the moves that lower the spread, one a round, until there is
  // none or the iterations are used up; every move brings the sums closer by one
  // at least, so with more iterations than the first spread it always settles.
  method Balance(sizes: seq<nat>, groups0: seq<seq<nat>>, sums0: seq<nat>, iterations: nat)
    returns (groups: seq<seq<nat>>, sums: seq<nat>, ghost trace: seq<State>)
    requires Grouping(sizes, groups0, sums0, |sizes|)
    ensures Grouping(sizes, groups, sums, |sizes|)
    ensures Rounds(sizes, trace) && trace[0] == State(groups0, sums0) && trace[|trace| - 1] == State(groups, sums)
    ensures |trace| - 1 <= iterations && (|trace| - 1 < iterations ==> Settled(sizes, State(groups, sums)))
    ensures CloserBy(sums0, sums, |trace| - 1)
  {
    groups, sums := groups0, sums0;
    trace := [State(groups0, sums0)];
    var avg := (sums[0] + sums[1] + sums[2] + sums[3]) / PARTS;
    var i := 0;
    while i < iterations
      invariant Grouping(sizes, groups, sums, |sizes|)
      invariant avg == (sums[0] + sums[1] + sums[2] + sums[3]) / PARTS
      invariant Rounds(sizes, trace) && |trace| == i + 1 <= iterations + 1
      invariant trace[0] == State(groups0, sums0) && trace[i] == State(groups, sums)
      invariant CloserBy(sums0, sums, i)
      decreases iterations - i
    {
      hide Grouping, Rounds, CloserBy, Settled;
      ghost var before := sums;
      var moved: bool;
      moved, groups, sums := TryMove(sizes, groups, sums, avg);
      if !moved { break; }
      NextRound(sizes, trace, State(groups, sums));
      CloserStill(sums0, before, sums, i);
      trace := trace + [State(groups, sums)];
      i := i + 1;
    }
  }
}
