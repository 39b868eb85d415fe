/**
 * Edge labels and edge weights under `relabel`: they are moved with their lists
 * and then put into the order the renamed lists will be sorted in, so that each
 * stays with its edge.
 */
module CsrEdgeData {
  import opened CsrGraph
  import opened CsrRelabel
  import opened Sorting

  // An order that sorts a list of distinct elements.
  ghost predicate Sorts(order: seq<nat>, list: seq<nat>) {
    && |order| == |list| && (forall i :: 0 <= i < |order| ==> order[i] < |list|)
    && SortedFrom(Pick(list, order), list)
  }

  function Key(list: seq<nat>, i: nat): nat {
    if i < |list| then list[i] else 0
  }

  // The index buffer, sorted by the neighbours it points at.
  method SortIndex(list: seq<nat>) returns (order: seq<nat>)
    requires Distinct(list)
    ensures Sorts(order, list)
  {
    var le := (i: nat, j: nat) => Key(list, i) <= Key(list, j);
    order := Sort(Count(|list|), le);
    SortedIndexSorts(list, order, le);
  }

  lemma SortedIndexSorts(list: seq<nat>, order: seq<nat>, le: (nat, nat) -> bool)
    requires Distinct(list) && forall i: nat, j: nat :: le(i, j) <==> Key(list, i) <= Key(list, j)
    requires multiset(order) == multiset(Count(|list|)) && SortedBy(order, le)
    ensures Sorts(order, list)
  {
    SameElements(order, Count(|list|));
    assert forall i :: 0 <= i < |order| ==> order[i] in order;
    forall i: nat | i < |list| ensures i in order { assert Count(|list|)[i] == i; }
    PickHolds(list, order);
    forall i, j | 0 <= i < j < |order| ensures list[order[i]] < list[order[j]] {
      assert le(order[i], order[j]);
      if order[i] == order[j] {
        TwiceInMultiset(order, i, j);
        OnceInMultiset(Count(|list|), order[i]);
      }
    }
  }

  lemma PickHolds(list: seq<nat>, order: seq<nat>)
    requires forall i :: 0 <= i < |order| ==> order[i] < |list|
    requires forall i: nat :: i < |list| ==> i in order
    ensures forall x :: x in Pick(list, order) <==> x in list
  {
    forall x | x in list ensures x in Pick(list, order) {
      var i :| 0 <= i < |list| && list[i] == x;
      assert i in order;
      var j :| 0 <= j < |order| && order[j] == i;
      assert Pick(list, order)[j] == x;
    }
  }

  // Strictly increasing lists with the same elements are the same list.
  lemma {:induction false} SameIncreasing(r: seq<nat>, s: seq<nat>)
    requires Increasing(r) && Increasing(s) && |r| == |s| && forall x :: x in r <==> x in s
    ensures r == s
  {
    if r != [] {
      var n := |r| - 1;
      LastIsLargest(r, s);
      LastIsLargest(s, r);
      forall x ensures x in r[..n] <==> x in s[..n] {
        WithoutLast(r, x);
        WithoutLast(s, x);
      }
      SameIncreasing(r[..n], s[..n]);
      assert r == r[..n] + [r[n]] && s == s[..n] + [s[n]];
    }
  }

  lemma LastIsLargest(r: seq<nat>, s: seq<nat>)
    requires Increasing(s) && |r| == |s| > 0 && forall x :: x in r ==> x in s
    ensures r[|r| - 1] <= s[|s| - 1]
  {
    assert r[|r| - 1] in s;
  }

  lemma WithoutLast(s: seq<nat>, x: nat)
    requires Increasing(s) && s != []
    ensures x in s[..|s| - 1] <==> x in s && x != s[|s| - 1]
  {
    if x in s && x != s[|s| - 1] {
      var i :| 0 <= i < |s| && s[i] == x;
      assert s[..|s| - 1][i] == x;
    }
  }

  // ---------------------------------------------------------------------
  // Moving the data of every list.
  // ---------------------------------------------------------------------

  // One item of data for each element of each list.
  ghost predicate Beside<T>(data: seq<seq<T>>, lists: seq<seq<nat>>) {
    |data| == |lists| && forall u :: 0 <= u < |lists| ==> |data[u]| == |lists[u]|
  }

  method MoveItems<T>(offset: seq<nat>, len: nat, data: array<T>, oldData: seq<T>, o: nat, u: nat, ghost v: nat,
                      ghost items: seq<seq<T>>, ghost moved: seq<seq<T>>)
    requires u < |items| && u < |offset| && offset[u] == Total(items, u) && len == |items[u]| && oldData == Flat(items, |items|)
    requires v < |moved| && moved[v] == items[u] && o == Total(moved, v) && Total(moved, |moved|) <= data.Length
    requires o <= data.Length && data[..o] == Flat(moved, v)
    modifies data
    ensures o + len == Total(moved, v + 1) <= data.Length && data[..o + len] == Flat(moved, v + 1)
  {
    hide Total, Flat;
    TotalGrows(moved, v + 1, |moved|);
    SliceOfList(items, u, oldData);
    FlatNext(moved, v);
    CopyList(data, oldData[offset[u]..offset[u] + len], o);
  }

  lemma FlatNext<T>(lists: seq<seq<T>>, v: nat)
    requires v < |lists|
    ensures Flat(lists, v + 1) == Flat(lists, v) + lists[v] && Total(lists, v + 1) == Total(lists, v) + |lists[v]|
  {
  }

  method MoveData<T>(degree: seq<nat>, offset: seq<nat>, data: array<T>, numEdges: nat, p: seq<nat>, ghost items: seq<seq<T>>)
    requires |p| == |items| == |degree| && (forall v :: 0 <= v < |p| ==> p[v] < |p|) && numEdges <= data.Length
    requires forall v :: 0 <= v < |p| ==> degree[v] == |items[p[v]]|
    requires |offset| == |p| + 1 && forall v :: 0 <= v <= |p| ==> offset[v] == Total(items, v)
    requires numEdges == Total(Reordered(items, p), |p|) && data[..numEdges] == Flat(items, |p|)
    modifies data
    ensures data[..numEdges] == Flat(Reordered(items, p), |p|)
  {
    ghost var moved := Reordered(items, p);
    var oldData := data[..numEdges];
    var o := 0;
    var v := 0;
    while v < |p|
      invariant 0 <= v <= |p| && o == Total(moved, v) <= data.Length
      invariant data[..o] == Flat(moved, v)
    {
      MoveItems(offset, degree[v], data, oldData, o, p[v], v, items, moved);
      o := o + degree[v];
      v := v + 1;
    }
  }

  // ---------------------------------------------------------------------
  // Putting the data of every list into its final order.
  // ---------------------------------------------------------------------

  ghost predicate Orders(orders: seq<seq<nat>>, lists: seq<seq<nat>>) {
    |orders| <= |lists| && forall v :: 0 <= v < |orders| ==> Sorts(orders[v], lists[v])
  }

  ghost function Arranged<T>(items: seq<seq<T>>, orders: seq<seq<nat>>, lists: seq<seq<nat>>): (r: seq<seq<T>>)
    requires Beside(items, lists) && Orders(orders, lists)
    ensures |r| == |orders| && forall v :: 0 <= v < |orders| ==> r[v] == Pick(items[v], orders[v])
  {
    seq(|orders|, v requires 0 <= v < |orders| => Pick(items[v], orders[v]))
  }

  // The data of the lists below |orders| is in order.
  ghost predicate ArrangedSoFar<T>(flat: seq<T>, items: seq<seq<T>>, orders: seq<seq<nat>>, lists: seq<seq<nat>>) {
    && Beside(items, lists) && Orders(orders, lists)
    && flat == Flat(Arranged(items, orders, lists), |orders|) + Tail(items, |orders|)
  }

  lemma ArrangeNext<T>(items: seq<seq<T>>, orders: seq<seq<nat>>, lists: seq<seq<nat>>, order: seq<nat>)
    requires Beside(items, lists) && Orders(orders, lists) && |orders| < |lists| && Sorts(order, lists[|orders|])
    ensures var v := |orders|;
            && Orders(orders + [order], lists)
            && Total(items, v) == Total(Arranged(items, orders, lists), v)
            && Flat(Arranged(items, orders + [order], lists), v + 1) == Flat(Arranged(items, orders, lists), v) + Pick(items[v], order)
  {
    var v := |orders|;
    var r := Arranged(items, orders, lists);
    TotalSame(items, r, v);
    assert Arranged(items, orders + [order], lists) == r + [Pick(items[v], order)];
    FlatMore(r, Pick(items[v], order));
  }

  // What stands in the middle of three pieces.
  lemma MiddlePiece<T>(flat: seq<T>, a: seq<T>, b: seq<T>, c: seq<T>)
    requires flat == a + (b + c)
    ensures flat == a + b + c && |a| + |b| <= |flat| && flat[|a|..|a| + |b|] == b
  {
  }

  // The data of one list, through a copy of it.
  method ArrangeOne<T>(data: array<T>, numEdges: nat, o: nat, order: seq<nat>,
                       ghost items: seq<seq<T>>, ghost orders: seq<seq<nat>>, ghost lists: seq<seq<nat>>)
    requires numEdges <= data.Length && ArrangedSoFar(data[..numEdges], items, orders, lists)
    requires |orders| < |lists| && Sorts(order, lists[|orders|]) && o == Total(items, |orders|)
    modifies data
    ensures ArrangedSoFar(data[..numEdges], items, orders + [order], lists)
  {
    ghost var v := |orders|;
    ghost var a, b, c := Flat(Arranged(items, orders, lists), v), items[v], Tail(items, v + 1);
    ArrangeNext(items, orders, lists, order);
    MiddlePiece(data[..numEdges], a, b, c);
    var oldData := data[..numEdges][o..o + |order|];
    assert oldData == b;
    var newData := Pick(oldData, order);
    PutSlice(data, numEdges, o, newData, a, b, c);
  }

  lemma ArrangedStart<T>(flat: seq<T>, items: seq<seq<T>>, lists: seq<seq<nat>>)
    requires Beside(items, lists) && flat == Flat(items, |items|)
    ensures ArrangedSoFar(flat, items, [], lists)
  {
    FlatAndTail(items, 0);
  }

  // Data present only when flagged.
  ghost predicate Carries<T>(present: bool, data: array<T>, numEdges: nat, items: seq<seq<T>>, lists: seq<seq<nat>>)
    reads data
  {
    present ==> Beside(items, lists) && numEdges <= data.Length && data[..numEdges] == Flat(items, |items|)
  }

  ghost predicate CarriesSoFar<T>(present: bool, data: array<T>, numEdges: nat, items: seq<seq<T>>, orders: seq<seq<nat>>, lists: seq<seq<nat>>)
    reads data
  {
    present ==> numEdges <= data.Length && ArrangedSoFar(data[..numEdges], items, orders, lists)
  }

  method ArrangeIfPresent<T>(present: bool, data: array<T>, numEdges: nat, o: nat, order: seq<nat>,
                             ghost items: seq<seq<T>>, ghost orders: seq<seq<nat>>, ghost lists: seq<seq<nat>>)
    requires CarriesSoFar(present, data, numEdges, items, orders, lists)
    requires |orders| < |lists| && Sorts(order, lists[|orders|]) && o == Total(lists, |orders|)
    modifies data
    ensures CarriesSoFar(present, data, numEdges, items, orders + [order], lists)
    ensures !present ==> data[..] == old(data[..])
  {
    if present {
      TotalSame(items, lists, |orders|);
      ArrangeOne(data, numEdges, o, order, items, orders, lists);
    }
  }

  // Labels and weights of every list, by one index.
  method ArrangeAll(degree: seq<nat>, adj: seq<nat>, numEdges: nat, edgeLabel: array<int>, edgeWeight: array<real>, labelled: bool, weighted: bool,
                    ghost lists: seq<seq<nat>>, ghost labels: seq<seq<int>>, ghost weights: seq<seq<real>>)
    returns (ghost orders: seq<seq<nat>>)
    requires |degree| == |lists| && (forall v :: 0 <= v < |lists| ==> degree[v] == |lists[v]| && Distinct(lists[v]))
    requires adj == Flat(lists, |lists|)
    requires Carries(labelled, edgeLabel, numEdges, labels, lists) && Carries(weighted, edgeWeight, numEdges, weights, lists)
    modifies edgeLabel, edgeWeight
    ensures |orders| == |lists| && Orders(orders, lists)
    ensures CarriesSoFar(labelled, edgeLabel, numEdges, labels, orders, lists)
    ensures CarriesSoFar(weighted, edgeWeight, numEdges, weights, orders, lists)
    ensures (!labelled ==> edgeLabel[..] == old(edgeLabel[..])) && (!weighted ==> edgeWeight[..] == old(edgeWeight[..]))
  {
    hide Sorts, Distinct, Increasing, SortedFrom;
    orders := [];
    if labelled { ArrangedStart(edgeLabel[..numEdges], labels, lists); }
    if weighted { ArrangedStart(edgeWeight[..numEdges], weights, lists); }
    var o := 0;
    var v := 0;
    while v < |degree|
      invariant 0 <= v <= |lists| && |orders| == v && Orders(orders, lists) && o == Total(lists, v)
      invariant CarriesSoFar(labelled, edgeLabel, numEdges, labels, orders, lists)
      invariant CarriesSoFar(weighted, edgeWeight, numEdges, weights, orders, lists)
      invariant (!labelled ==> edgeLabel[..] == old(edgeLabel[..])) && (!weighted ==> edgeWeight[..] == old(edgeWeight[..]))
    {
      SliceOfList(lists, v, adj);
      var order := SortIndex(adj[o..o + degree[v]]);
      ArrangeIfPresent(labelled, edgeLabel, numEdges, o, order, labels, orders, lists);
      ArrangeIfPresent(weighted, edgeWeight, numEdges, o, order, weights, orders, lists);
      orders := orders + [order];
      o := o + degree[v];
      v := v + 1;
    }
  }

  // ---------------------------------------------------------------------
  // The whole renaming.
  // ---------------------------------------------------------------------

  // The data arrays are apart from the arrays of the graph.
  ghost predicate Apart(degree: array<nat>, offset: array<nat>, adj: array<nat>, edgeLabel: array<int>, edgeWeight: array<real>) {
    && degree != adj && offset != adj && degree != offset
    && edgeLabel as object != degree && edgeLabel as object != offset && edgeLabel as object != adj
    && edgeWeight as object != degree && edgeWeight as object != offset && edgeWeight as object != adj
  }

  // Data that has moved with its lists and been put in order.
  ghost predicate Carried<T>(present: bool, data: array<T>, numEdges: nat, items: seq<seq<T>>, p: seq<nat>,
                             orders: seq<seq<nat>>, moved: seq<seq<nat>>)
    requires forall v :: 0 <= v < |p| ==> p[v] < |items|
    reads data
  {
    present ==>
      && numEdges <= data.Length && |orders| == |moved| && Beside(Reordered(items, p), moved) && Orders(orders, moved)
      && data[..numEdges] == Flat(Arranged(Reordered(items, p), orders, moved), |moved|)
  }

  lemma MovedShape<T>(items: seq<seq<T>>, lists: seq<seq<nat>>, p: seq<nat>, q: seq<nat>)
    requires Beside(items, lists) && Inverse(p, q) && |lists| == |p| && InRange(lists)
    ensures Beside(Reordered(items, p), Moved(lists, p, q))
    ensures Total(Reordered(items, p), |p|) == Total(lists, |p|)
    ensures forall v :: 0 <= v <= |p| ==> Total(items, v) == Total(lists, v)
  {
    MovedTotal(lists, p, q);
    TotalSame(Reordered(items, p), Moved(lists, p, q), |p|);
    forall v | 0 <= v <= |p| ensures Total(items, v) == Total(lists, v) { TotalSame(items, lists, v); }
  }

  method MoveIfPresent<T>(present: bool, degree: seq<nat>, offset: seq<nat>, data: array<T>, numEdges: nat, p: seq<nat>,
                          ghost q: seq<nat>, ghost items: seq<seq<T>>, ghost lists: seq<seq<nat>>)
    requires Inverse(p, q) && |lists| == |p| == |items| && InRange(lists) && numEdges == Total(lists, |p|)
    requires degree == Degrees(Moved(lists, p, q))
    requires |offset| == |p| + 1 && forall v :: 0 <= v <= |p| ==> offset[v] == Total(lists, v)
    requires Carries(present, data, numEdges, items, lists)
    modifies data
    ensures Carries(present, data, numEdges, Reordered(items, p), Moved(lists, p, q))
    ensures !present ==> data[..] == old(data[..])
  {
    if present {
      MovedShape(items, lists, p, q);
      MoveData(degree, offset, data, numEdges, p, items);
    }
  }

  lemma AllArranged<T>(present: bool, data: array<T>, numEdges: nat, items: seq<seq<T>>, p: seq<nat>,
                       orders: seq<seq<nat>>, moved: seq<seq<nat>>)
    requires forall v :: 0 <= v < |p| ==> p[v] < |items|
    requires present ==> |orders| == |moved|
    requires CarriesSoFar(present, data, numEdges, Reordered(items, p), orders, moved)
    ensures Carried(present, data, numEdges, items, p, orders, moved)
  {
    if present {
      var r := Flat(Arranged(Reordered(items, p), orders, moved), |orders|);
      assert r + [] == r;
    }
  }

  // Degrees and lists, then the data, then the offsets and the order.
  method RelabelArrays(degree: array<nat>, offset: array<nat>, adj: array<nat>, numEdges: nat,
                       edgeLabel: array<int>, edgeWeight: array<real>, labelled: bool, weighted: bool, newToOld: seq<nat>,
                       ghost lists: seq<seq<nat>>, ghost labels: seq<seq<int>>, ghost weights: seq<seq<real>>)
    returns (ghost q: seq<nat>, ghost sorted: seq<seq<nat>>, ghost orders: seq<seq<nat>>)
    requires Holds(degree, offset, adj, numEdges, lists) && PlainLists(lists)
    requires Permutation(newToOld) && |newToOld| == |lists| == |labels| == |weights|
    requires Apart(degree, offset, adj, edgeLabel, edgeWeight)
    requires Carries(labelled, edgeLabel, numEdges, labels, lists) && Carries(weighted, edgeWeight, numEdges, weights, lists)
    modifies degree, offset, adj, edgeLabel, edgeWeight
    ensures Inverse(newToOld, q) && |sorted| == |lists|
    ensures Holds(degree, offset, adj, numEdges, sorted)
    ensures forall v :: 0 <= v < |lists| ==> SortedFrom(sorted[v], Moved(lists, newToOld, q)[v])
    ensures Carried(labelled, edgeLabel, numEdges, labels, newToOld, orders, Moved(lists, newToOld, q))
    ensures Carried(weighted, edgeWeight, numEdges, weights, newToOld, orders, Moved(lists, newToOld, q))
    ensures (!labelled ==> edgeLabel[..] == old(edgeLabel[..])) && (!weighted ==> edgeWeight[..] == old(edgeWeight[..]))
  {
    var oldToNew := OldToNew(newToOld);
    q := oldToNew;
    MoveLists(degree, offset, adj, numEdges, newToOld, oldToNew, lists);
    ghost var moved := Moved(lists, newToOld, oldToNew);
    MovedDistinct(lists, newToOld, oldToNew);
    MoveIfPresent(labelled, degree[..], offset[..], edgeLabel, numEdges, newToOld, q, labels, lists);
    MoveIfPresent(weighted, degree[..], offset[..], edgeWeight, numEdges, newToOld, q, weights, lists);
    orders := [];
    if labelled || weighted {
      orders := ArrangeAll(degree[..], adj[..numEdges], numEdges, edgeLabel, edgeWeight, labelled, weighted,
                           moved, Reordered(labels, newToOld), Reordered(weights, newToOld));
    }
    AllArranged(labelled, edgeLabel, numEdges, labels, newToOld, orders, moved);
    AllArranged(weighted, edgeWeight, numEdges, weights, newToOld, orders, moved);
    sorted := SortLists(degree, offset, adj, numEdges, moved);
    SortedHolds(degree, offset, adj, numEdges, moved, sorted);
  }

  // ---------------------------------------------------------------------
  // Edge by edge.
  // ---------------------------------------------------------------------

  // The item at a place of a sorted list is the item of the same edge before.
  lemma ItemFollows<T>(lists: seq<seq<nat>>, items: seq<seq<T>>, sorted: seq<nat>, order: seq<nat>, p: seq<nat>, q: seq<nat>, a: nat, i: nat, j: nat)
    requires Inverse(p, q) && |lists| == |p| && InRange(lists) && Beside(items, lists) && a < |p| && Distinct(lists[p[a]])
    requires SortedFrom(sorted, Moved(lists, p, q)[a]) && Sorts(order, Moved(lists, p, q)[a])
    requires i < |sorted| && j < |lists[p[a]]| && sorted[i] < |p| && p[sorted[i]] == lists[p[a]][j]
    ensures i < |order| == |items[p[a]]| && Pick(items[p[a]], order)[i] == items[p[a]][j]
  {
    var moved := Moved(lists, p, q)[a];
    SameIncreasing(sorted, Pick(moved, order));
    InverseBack(p, q, lists[p[a]][order[i]]);
    assert lists[p[a]][order[i]] == lists[p[a]][j];
  }

  function IndexOf(s: seq<nat>, x: nat): (i: nat)
    requires x in s
    ensures i < |s| && s[i] == x
  {
    if s[0] == x then 0 else IndexOf(s[1..], x) + 1
  }

  // Every edge of the new lists has the item it had under its old names.
  ghost predicate SameItems<T>(lists: seq<seq<nat>>, items: seq<seq<T>>, sorted: seq<seq<nat>>, items': seq<seq<T>>, p: seq<nat>) {
    && |lists| == |p| && Beside(items, lists) && Beside(items', sorted) && |sorted| == |p| && (forall v :: 0 <= v < |p| ==> p[v] < |p|)
    && forall a: nat, b: nat :: a < |p| && b < |p| && b in sorted[a] && p[b] in lists[p[a]] ==>
         items'[a][IndexOf(sorted[a], b)] == items[p[a]][IndexOf(lists[p[a]], p[b])]
  }

  lemma ArrangedSameItems<T>(lists: seq<seq<nat>>, items: seq<seq<T>>, sorted: seq<seq<nat>>, p: seq<nat>, q: seq<nat>, orders: seq<seq<nat>>)
    requires Inverse(p, q) && |lists| == |p| == |sorted| == |orders| && PlainLists(lists) && Beside(items, lists)
    requires forall v :: 0 <= v < |p| ==> SortedFrom(sorted[v], Moved(lists, p, q)[v])
    requires Beside(Reordered(items, p), Moved(lists, p, q)) && Orders(orders, Moved(lists, p, q))
    ensures SameItems(lists, items, sorted, Arranged(Reordered(items, p), orders, Moved(lists, p, q)), p)
  {
    var items' := Arranged(Reordered(items, p), orders, Moved(lists, p, q));
    forall a: nat, b: nat | a < |p| && b < |p| && b in sorted[a] && p[b] in lists[p[a]]
      ensures items'[a][IndexOf(sorted[a], b)] == items[p[a]][IndexOf(lists[p[a]], p[b])]
    {
      ItemFollows(lists, items, sorted[a], orders[a], p, q, a, IndexOf(sorted[a], b), IndexOf(lists[p[a]], p[b]));
    }
  }

  // The data array holds the items, which are those of the old lists.
  ghost predicate Renewed<T>(data: array<T>, numEdges: nat, lists: seq<seq<nat>>, items: seq<seq<T>>,
                             sorted: seq<seq<nat>>, items': seq<seq<T>>, p: seq<nat>)
    reads data
  {
    numEdges <= data.Length && data[..numEdges] == Flat(items', |items'|) && SameItems(lists, items, sorted, items', p)
  }

  ghost function FinalItems<T>(present: bool, lists: seq<seq<nat>>, items: seq<seq<T>>, p: seq<nat>, q: seq<nat>, orders: seq<seq<nat>>): seq<seq<T>>
    requires Inverse(p, q) && |lists| == |p| == |items| && InRange(lists)
    requires present ==> Beside(Reordered(items, p), Moved(lists, p, q)) && Orders(orders, Moved(lists, p, q))
  {
    if present then Arranged(Reordered(items, p), orders, Moved(lists, p, q)) else items
  }

  // The renaming, against the lists the arrays held before.
  method RelabelLists(degree: array<nat>, offset: array<nat>, adj: array<nat>, numEdges: nat,
                      edgeLabel: array<int>, edgeWeight: array<real>, labelled: bool, weighted: bool, newToOld: seq<nat>,
                      ghost lists: seq<seq<nat>>, ghost labels: seq<seq<int>>, ghost weights: seq<seq<real>>)
    returns (ghost sorted: seq<seq<nat>>, ghost labels': seq<seq<int>>, ghost weights': seq<seq<real>>)
    requires Holds(degree, offset, adj, numEdges, lists) && PlainLists(lists)
    requires Permutation(newToOld) && |newToOld| == |lists|
    requires Apart(degree, offset, adj, edgeLabel, edgeWeight)
    requires Beside(labels, lists) && numEdges <= edgeLabel.Length && edgeLabel[..numEdges] == Flat(labels, |labels|)
    requires Beside(weights, lists) && numEdges <= edgeWeight.Length && edgeWeight[..numEdges] == Flat(weights, |weights|)
    modifies degree, offset, adj, edgeLabel, edgeWeight
    ensures |sorted| == |lists| && Holds(degree, offset, adj, numEdges, sorted) && InRange(sorted) && (forall u :: 0 <= u < |lists| ==> Increasing(sorted[u]))
    ensures forall a: nat, b: nat :: a < |lists| && b < |lists| ==> (b in sorted[a] <==> newToOld[b] in lists[newToOld[a]])
    ensures labelled ==> Renewed(edgeLabel, numEdges, lists, labels, sorted, labels', newToOld)
    ensures weighted ==> Renewed(edgeWeight, numEdges, lists, weights, sorted, weights', newToOld)
    ensures (!labelled ==> edgeLabel[..] == old(edgeLabel[..])) && (!weighted ==> edgeWeight[..] == old(edgeWeight[..]))
  {
    ghost var q, orders;
    q, sorted, orders := RelabelArrays(degree, offset, adj, numEdges, edgeLabel, edgeWeight, labelled, weighted, newToOld, lists, labels, weights);
    SortedSame(lists, sorted, newToOld, q);
    labels' := FinalItems(labelled, lists, labels, newToOld, q, orders);
    weights' := FinalItems(weighted, lists, weights, newToOld, q, orders);
    if labelled { ArrangedSameItems(lists, labels, sorted, newToOld, q, orders); }
    if weighted { ArrangedSameItems(lists, weights, sorted, newToOld, q, orders); }
  }

  // ---------------------------------------------------------------------
  // What it means for a graph.
  // ---------------------------------------------------------------------

  // The data of the edges of one vertex.
  ghost function Items<T>(g: Graph, data: array<T>, u: nat): seq<T>
    requires g.Valid() && u < g.numVertices && g.numEdges <= data.Length
    reads g, g.degree, g.offset, g.adj, data
  {
    data[g.offset[u]..g.offset[u + 1]]
  }

  lemma TakeItems<T>(g: Graph, data: array<T>) returns (items: seq<seq<T>>)
    requires g.Valid() && g.numEdges <= data.Length
    ensures |items| == g.numVertices && data[..g.numEdges] == Flat(items, |items|)
    ensures forall u :: 0 <= u < g.numVertices ==> items[u] == Items(g, data, u) && |items[u]| == |g.Neighbors(u)|
  {
    var n, offset, flat := g.numVertices, g.offset[..], data[..];
    forall u: nat | u < n ensures SliceAt(offset, flat, u) && Slice(offset, flat, u) == Items(g, data, u) {
      assert g.offset[u + 1] == g.offset[u] + g.degree[u];
    }
    items := Cut(offset, flat, n);
    CutHolds(offset, flat, n);
    assert data[..g.numEdges] == flat[..offset[n]];
  }

  lemma GiveItems<T>(g: Graph, data: array<T>, items: seq<seq<T>>, u: nat)
    requires g.Valid() && g.numEdges <= data.Length && |items| == g.numVertices && data[..g.numEdges] == Flat(items, |items|)
    requires u < g.numVertices && g.offset[u] == Total(items, u) && g.offset[u + 1] == Total(items, u + 1)
    ensures Items(g, data, u) == items[u]
  {
    FlatHolds(items, u, |items|);
    assert Items(g, data, u) == data[..g.numEdges][g.offset[u]..g.offset[u + 1]];
  }

  // The item of the edge from u to v.
  ghost function ItemOf<T>(g: Graph, data: array<T>, u: nat, v: nat): T
    requires g.Valid() && u < g.numVertices && g.numEdges <= data.Length && v in g.Neighbors(u)
    reads g, g.degree, g.offset, g.adj, data
  {
    assert g.offset[u + 1] == g.offset[u] + g.degree[u];
    Items(g, data, u)[IndexOf(g.Neighbors(u), v)]
  }

  // Arrays that hold lists and their items, seen as a graph.
  lemma ItemIs<T>(g: Graph, data: array<T>, lists: seq<seq<nat>>, items: seq<seq<T>>, u: nat, v: nat)
    requires g.Valid() && |lists| == g.numVertices && Holds(g.degree, g.offset, g.adj, g.numEdges, lists) && Beside(items, lists)
    requires g.numEdges <= data.Length && data[..g.numEdges] == Flat(items, |items|)
    requires u < g.numVertices && g.Neighbors(u) == lists[u] && v in lists[u]
    ensures ItemOf(g, data, u, v) == items[u][IndexOf(lists[u], v)]
  {
    TotalSame(items, lists, u);
    TotalSame(items, lists, u + 1);
    GiveItems(g, data, items, u);
  }

  ghost predicate Kept<T>(g: Graph, data: array<T>, lists: seq<seq<nat>>, items: seq<seq<T>>, p: seq<nat>)
    requires g.Valid() && g.numEdges <= data.Length && |lists| == g.numVertices && Beside(items, lists)
    requires |p| == g.numVertices && forall v :: 0 <= v < |p| ==> p[v] < |p|
    reads g, g.degree, g.offset, g.adj, data
  {
    forall a: nat, b: nat :: a < |p| && b < |p| && b in g.Neighbors(a) && p[b] in lists[p[a]] ==>
      ItemOf(g, data, a, b) == items[p[a]][IndexOf(lists[p[a]], p[b])]
  }

  lemma RenewedIsKept<T>(g: Graph, data: array<T>, lists: seq<seq<nat>>, items: seq<seq<T>>, sorted: seq<seq<nat>>, items': seq<seq<T>>, p: seq<nat>)
    requires g.Valid() && |lists| == g.numVertices && Holds(g.degree, g.offset, g.adj, g.numEdges, sorted)
    requires Renewed(data, g.numEdges, lists, items, sorted, items', p)
    requires forall u :: 0 <= u < g.numVertices ==> g.Neighbors(u) == sorted[u]
    ensures Kept(g, data, lists, items, p)
  {
    forall a: nat, b: nat | a < |p| && b < |p| && b in g.Neighbors(a) && p[b] in lists[p[a]]
      ensures ItemOf(g, data, a, b) == items[p[a]][IndexOf(lists[p[a]], p[b])]
    {
      ItemIs(g, data, sorted, items', a, b);
    }
  }

  // Every list strictly increasing, of vertices that exist.
  ghost predicate ListsSorted(g: Graph)
    requires g.Valid()
    reads g, g.degree, g.offset, g.adj
  {
    && (forall u: nat :: u < g.numVertices ==> Increasing(g.Neighbors(u)))
    && (forall u: nat, v: nat :: u < g.numVertices && v in g.Neighbors(u) ==> v < g.numVertices)
  }

  ghost predicate Symmetric(g: Graph)
    requires g.Valid()
    reads g, g.degree, g.offset, g.adj
  {
    forall u: nat, v: nat :: u < g.numVertices && v < g.numVertices ==> (v in g.Neighbors(u) <==> u in g.Neighbors(v))
  }

  ghost predicate SymmetricLists(lists: seq<seq<nat>>) {
    forall u: nat, v: nat :: u < |lists| && v < |lists| ==> (v in lists[u] <==> u in lists[v])
  }

  // An edge wherever the old lists have one between the old names.
  ghost predicate SameEdges(g: Graph, lists: seq<seq<nat>>, p: seq<nat>)
    requires g.Valid() && |lists| == g.numVertices == |p| && forall v :: 0 <= v < |p| ==> p[v] < |p|
    reads g, g.degree, g.offset, g.adj
  {
    forall a: nat, b: nat :: a < |p| && b < |p| ==> (b in g.Neighbors(a) <==> p[b] in lists[p[a]])
  }

  lemma StaysSymmetric(g: Graph, lists: seq<seq<nat>>, p: seq<nat>)
    requires g.Valid() && |lists| == g.numVertices == |p| && forall v :: 0 <= v < |p| ==> p[v] < |p|
    requires SameEdges(g, lists, p) && SymmetricLists(lists) && ListsSorted(g)
    ensures g.Simple()
  {
    forall u: nat, v: nat | u < g.numVertices && v < g.numVertices ensures v in g.Neighbors(u) <==> u in g.Neighbors(v) {
      assert p[v] in lists[p[u]] <==> p[u] in lists[p[v]];
    }
  }

  lemma SymmetricBefore(g: Graph, lists: seq<seq<nat>>)
    requires g.Valid() && |lists| == g.numVertices && forall u :: 0 <= u < g.numVertices ==> lists[u] == g.Neighbors(u)
    requires Symmetric(g)
    ensures SymmetricLists(lists)
  {
    forall u: nat, v: nat | u < |lists| && v < |lists| ensures v in lists[u] <==> u in lists[v] {
      assert v in g.Neighbors(u) <==> u in g.Neighbors(v);
    }
  }

  lemma IncreasingLists(g: Graph, sorted: seq<seq<nat>>)
    requires g.Valid() && |sorted| == g.numVertices && InRange(sorted) && forall u :: 0 <= u < |sorted| ==> Increasing(sorted[u])
    requires forall u :: 0 <= u < |sorted| ==> g.Neighbors(u) == sorted[u]
    ensures ListsSorted(g)
  {
    forall u: nat, v: nat | u < g.numVertices && v in g.Neighbors(u) ensures v < g.numVertices {
      var i :| 0 <= i < |sorted[u]| && sorted[u][i] == v;
    }
  }

  lemma GraphAfter(g: Graph, lists: seq<seq<nat>>, sorted: seq<seq<nat>>, p: seq<nat>)
    requires |lists| == |sorted| == g.numVertices == |p| && forall v :: 0 <= v < |p| ==> p[v] < |p|
    requires Holds(g.degree, g.offset, g.adj, g.numEdges, sorted) && InRange(sorted)
    requires forall u :: 0 <= u < |sorted| ==> Increasing(sorted[u])
    requires forall a: nat, b: nat :: a < |p| && b < |p| ==> (b in sorted[a] <==> p[b] in lists[p[a]])
    ensures g.Valid() && ListsSorted(g) && SameEdges(g, lists, p) && (SymmetricLists(lists) ==> g.Simple())
    ensures forall u :: 0 <= u < |sorted| ==> g.Neighbors(u) == sorted[u]
  {
    PutLists(g, sorted);
    IncreasingLists(g, sorted);
    forall a: nat, b: nat | a < |p| && b < |p| ensures b in g.Neighbors(a) <==> p[b] in lists[p[a]] {
      assert g.Neighbors(a) == sorted[a];
    }
    if SymmetricLists(lists) { StaysSymmetric(g, lists, p); }
  }

  // The renaming on a graph, against the lists and items it had.
  method RelabelGraph(g: Graph, edgeLabel: array<int>, edgeWeight: array<real>, labelled: bool, weighted: bool, newToOld: seq<nat>,
                      ghost lists: seq<seq<nat>>, ghost labels: seq<seq<int>>, ghost weights: seq<seq<real>>)
    requires g.Valid() && |newToOld| == g.numVertices == |lists| && Permutation(newToOld)
    requires Holds(g.degree, g.offset, g.adj, g.numEdges, lists) && PlainLists(lists)
    requires Apart(g.degree, g.offset, g.adj, edgeLabel, edgeWeight)
    requires Beside(labels, lists) && g.numEdges <= edgeLabel.Length && edgeLabel[..g.numEdges] == Flat(labels, |labels|)
    requires Beside(weights, lists) && g.numEdges <= edgeWeight.Length && edgeWeight[..g.numEdges] == Flat(weights, |weights|)
    modifies g.degree, g.offset, g.adj, edgeLabel, edgeWeight
    ensures g.Valid() && ListsSorted(g) && SameEdges(g, lists, newToOld) && (SymmetricLists(lists) ==> g.Simple())
    ensures labelled ==> Kept(g, edgeLabel, lists, labels, newToOld)
    ensures weighted ==> Kept(g, edgeWeight, lists, weights, newToOld)
    ensures (!labelled ==> edgeLabel[..] == old(edgeLabel[..])) && (!weighted ==> edgeWeight[..] == old(edgeWeight[..]))
  {
    ghost var sorted, labels', weights' := RelabelLists(g.degree, g.offset, g.adj, g.numEdges, edgeLabel, edgeWeight, labelled, weighted,
                                                        newToOld, lists, labels, weights);
    GraphAfter(g, lists, sorted, newToOld);
    if labelled { RenewedIsKept(g, edgeLabel, lists, labels, sorted, labels', newToOld); }
    if weighted { RenewedIsKept(g, edgeWeight, lists, weights, sorted, weights', newToOld); }
  }

  lemma ItemsBefore<T>(g: Graph, data: array<T>, lists: seq<seq<nat>>, items: seq<seq<T>>)
    requires g.Valid() && g.numEdges <= data.Length && |lists| == |items| == g.numVertices
    requires forall u :: 0 <= u < g.numVertices ==>
               lists[u] == g.Neighbors(u) && items[u] == Items(g, data, u) && |items[u]| == |lists[u]|
    ensures forall u: nat, v: nat :: u < g.numVertices && v in g.Neighbors(u) ==> ItemOf(g, data, u, v) == items[u][IndexOf(lists[u], v)]
  {
  }

  // What the arrays hold, list by list and edge by edge.
  lemma Before(g: Graph, edgeLabel: array<int>, edgeWeight: array<real>)
    returns (lists: seq<seq<nat>>, labels: seq<seq<int>>, weights: seq<seq<real>>)
    requires g.Valid() && Plain(g) && g.numEdges <= edgeLabel.Length && g.numEdges <= edgeWeight.Length
    ensures |lists| == g.numVertices && Holds(g.degree, g.offset, g.adj, g.numEdges, lists) && PlainLists(lists)
    ensures forall u :: 0 <= u < g.numVertices ==> lists[u] == g.Neighbors(u)
    ensures Symmetric(g) ==> SymmetricLists(lists)
    ensures Beside(labels, lists) && edgeLabel[..g.numEdges] == Flat(labels, |labels|)
    ensures Beside(weights, lists) && edgeWeight[..g.numEdges] == Flat(weights, |weights|)
    ensures forall u: nat, v: nat :: u < g.numVertices && v in g.Neighbors(u) ==>
              && ItemOf(g, edgeLabel, u, v) == labels[u][IndexOf(lists[u], v)]
              && ItemOf(g, edgeWeight, u, v) == weights[u][IndexOf(lists[u], v)]
  {
    hide Plain, PlainLists, Symmetric, SymmetricLists, Holds, ItemOf;
    lists := TakeLists(g);
    labels := TakeItems(g, edgeLabel);
    weights := TakeItems(g, edgeWeight);
    PlainGraph(g, lists);
    if Symmetric(g) { SymmetricBefore(g, lists); }
    ItemsBefore(g, edgeLabel, lists, labels);
    ItemsBefore(g, edgeWeight, lists, weights);
  }

  // Old vertex newToOld[v] becomes v. For any graph whose lists repeat no
  // neighbour, sorted or not, directed or not: every list ends sorted, there is
  // an edge exactly where there was one between the old names, every edge keeps
  // its label and its weight, and a symmetric graph stays symmetric.
  method Relabel(g: Graph, edgeLabel: array<int>, edgeWeight: array<real>, labelled: bool, weighted: bool, newToOld: seq<nat>)
    requires g.Valid() && Plain(g) && Permutation(newToOld) && |newToOld| == g.numVertices
    requires Apart(g.degree, g.offset, g.adj, edgeLabel, edgeWeight)
    requires g.numEdges <= edgeLabel.Length && g.numEdges <= edgeWeight.Length
    modifies g.degree, g.offset, g.adj, edgeLabel, edgeWeight
    ensures g.Valid() && ListsSorted(g) && (old(Symmetric(g)) ==> g.Simple())
    ensures forall a: nat, b: nat :: a < g.numVertices && b < g.numVertices ==>
              (b in g.Neighbors(a) <==> newToOld[b] in old(g.Neighbors(newToOld[a])))
    ensures labelled ==> forall a: nat, b: nat :: a < g.numVertices && b < g.numVertices && b in g.Neighbors(a) ==>
              ItemOf(g, edgeLabel, a, b) == old(ItemOf(g, edgeLabel, newToOld[a], newToOld[b]))
    ensures weighted ==> forall a: nat, b: nat :: a < g.numVertices && b < g.numVertices && b in g.Neighbors(a) ==>
              ItemOf(g, edgeWeight, a, b) == old(ItemOf(g, edgeWeight, newToOld[a], newToOld[b]))
    ensures (!labelled ==> edgeLabel[..] == old(edgeLabel[..])) && (!weighted ==> edgeWeight[..] == old(edgeWeight[..]))
  {
    ghost var lists, labels, weights := Before(g, edgeLabel, edgeWeight);
    RelabelGraph(g, edgeLabel, edgeWeight, labelled, weighted, newToOld, lists, labels, weights);
    forall a: nat, b: nat | a < g.numVertices && b < g.numVertices
      ensures b in g.Neighbors(a) <==> newToOld[b] in old(g.Neighbors(newToOld[a]))
    {
      assert lists[newToOld[a]] == old(g.Neighbors(newToOld[a]));
    }
    if labelled {
      forall a: nat, b: nat | a < g.numVertices && b < g.numVertices && b in g.Neighbors(a)
        ensures newToOld[b] in old(g.Neighbors(newToOld[a]))
        ensures ItemOf(g, edgeLabel, a, b) == old(ItemOf(g, edgeLabel, newToOld[a], newToOld[b]))
      {
        assert newToOld[b] in lists[newToOld[a]];
        assert ItemOf(g, edgeLabel, a, b) == labels[newToOld[a]][IndexOf(lists[newToOld[a]], newToOld[b])];
      }
    }
    if weighted {
      forall a: nat, b: nat | a < g.numVertices && b < g.numVertices && b in g.Neighbors(a)
        ensures newToOld[b] in old(g.Neighbors(newToOld[a]))
        ensures ItemOf(g, edgeWeight, a, b) == old(ItemOf(g, edgeWeight, newToOld[a], newToOld[b]))
      {
        assert newToOld[b] in lists[newToOld[a]];
        assert ItemOf(g, edgeWeight, a, b) == weights[newToOld[a]][IndexOf(lists[newToOld[a]], newToOld[b])];
      }
    }
  }
}
