/**
 * Renaming the vertices of a CSR graph in place: the lists move to their new
 * places, their elements get their new names, and each list is sorted again.
 */
module CsrRelabel {
  import opened CsrGraph
  import opened Sorting

  ghost predicate Permutation(p: seq<nat>) {
    && (forall v :: 0 <= v < |p| ==> p[v] < |p|)
    && (forall v, w :: 0 <= v < w < |p| ==> p[v] != p[w])
    && (forall x: nat :: x < |p| ==> x in p)
  }

  // ---------------------------------------------------------------------
  // A permutation keeps the number of edges.
  // ---------------------------------------------------------------------

  lemma {:induction false} TotalWithout(lists: seq<seq<nat>>, v: nat)
    requires v < |lists|
    ensures Total(lists, |lists|) == Total(lists[..v] + lists[v + 1..], |lists| - 1) + |lists[v]|
  {
    var n := |lists| - 1;
    TotalSame(lists, lists[..n], n);
    if v == n {
      assert lists[..v] + lists[v + 1..] == lists[..n];
    } else {
      TotalWithout(lists[..n], v);
      var rest := lists[..v] + lists[v + 1..];
      assert rest[..n - 1] == lists[..n][..v] + lists[..n][v + 1..];
      TotalSame(rest, rest[..n - 1], n - 1);
    }
  }

  lemma {:induction false} TotalSame<A, B>(a: seq<seq<A>>, b: seq<seq<B>>, n: nat)
    requires n <= |a| && n <= |b| && forall v :: 0 <= v < n ==> |a[v]| == |b[v]|
    ensures Total(a, n) == Total(b, n)
  {
    if n > 0 { TotalSame(a, b, n - 1); }
  }

  function Reordered<T>(lists: seq<seq<T>>, p: seq<nat>): (r: seq<seq<T>>)
    requires forall v :: 0 <= v < |p| ==> p[v] < |lists|
    ensures |r| == |p| && forall v :: 0 <= v < |p| ==> r[v] == lists[p[v]]
  {
    seq(|p|, v requires 0 <= v < |p| => lists[p[v]])
  }

  lemma ReorderedWithout(lists: seq<seq<nat>>, p: seq<nat>, v: nat)
    requires |lists| == |p| && Permutation(p) && v < |p| && p[v] == |p| - 1
    ensures Permutation(p[..v] + p[v + 1..])
    ensures Reordered(lists, p)[..v] + Reordered(lists, p)[v + 1..] == Reordered(lists[..|p| - 1], p[..v] + p[v + 1..])
  {
    RestIsPermutation(p, v);
  }

  lemma {:induction false} TotalReordered(lists: seq<seq<nat>>, p: seq<nat>)
    requires |lists| == |p| && Permutation(p)
    ensures Total(Reordered(lists, p), |p|) == Total(lists, |p|)
    decreases |p|
  {
    if p != [] {
      var v := PlaceOfLast(p);
      ReorderedWithout(lists, p, v);
      var r, front := Reordered(lists, p), lists[..|p| - 1];
      TotalReordered(front, p[..v] + p[v + 1..]);
      TotalStep(r, lists, r[..v] + r[v + 1..], front, v);
    }
  }

  lemma PlaceOfLast(p: seq<nat>) returns (v: nat)
    requires Permutation(p) && p != []
    ensures v < |p| && p[v] == |p| - 1
  {
    var n := |p| - 1;
    assert n in p;
    v :| 0 <= v <= n && p[v] == n;
  }

  lemma TotalStep(r: seq<seq<nat>>, lists: seq<seq<nat>>, rest: seq<seq<nat>>, front: seq<seq<nat>>, v: nat)
    requires |r| == |lists| && v < |r| && r[v] == lists[|lists| - 1]
    requires rest == r[..v] + r[v + 1..] && front == lists[..|r| - 1] && Total(rest, |r| - 1) == Total(front, |r| - 1)
    ensures Total(r, |r|) == Total(lists, |r|)
  {
    TotalWithout(r, v);
    TotalSame(lists, front, |r| - 1);
  }

  lemma RestIsPermutation(p: seq<nat>, v: nat)
    requires Permutation(p) && v < |p| && p[v] == |p| - 1
    ensures Permutation(p[..v] + p[v + 1..])
  {
    var q := p[..v] + p[v + 1..];
    forall x: nat | x < |q| ensures x in q {
      assert x in p;
      var w :| 0 <= w < |p| && p[w] == x;
      assert q[if w < v then w else w - 1] == x;
    }
  }

  // ---------------------------------------------------------------------
  // New names.
  // ---------------------------------------------------------------------

  method OldToNew(newToOld: seq<nat>) returns (oldToNew: seq<nat>)
    requires Permutation(newToOld)
    ensures |oldToNew| == |newToOld| && forall v :: 0 <= v < |newToOld| ==> oldToNew[newToOld[v]] == v
  {
    oldToNew := seq(|newToOld|, _ => 0);
    var v := 0;
    while v < |newToOld|
      invariant 0 <= v <= |newToOld| == |oldToNew|
      invariant forall w :: 0 <= w < v ==> oldToNew[newToOld[w]] == w
    {
      oldToNew := oldToNew[newToOld[v] := v];
      v := v + 1;
    }
  }

  function Renamed(list: seq<nat>, q: seq<nat>): (r: seq<nat>)
    requires forall i :: 0 <= i < |list| ==> list[i] < |q|
    ensures |r| == |list| && forall i :: 0 <= i < |list| ==> r[i] == q[list[i]]
  {
    seq(|list|, i requires 0 <= i < |list| => q[list[i]])
  }

  ghost predicate Inverse(p: seq<nat>, q: seq<nat>) {
    |p| == |q| && Permutation(p) && forall v :: 0 <= v < |p| ==> q[p[v]] == v
  }

  lemma InverseBack(p: seq<nat>, q: seq<nat>, x: nat)
    requires Inverse(p, q) && x < |p|
    ensures q[x] < |p| && p[q[x]] == x
  {
    assert x in p;
    var w :| 0 <= w < |p| && p[w] == x;
  }

  lemma RenamedHolds(list: seq<nat>, p: seq<nat>, q: seq<nat>, b: nat)
    requires Inverse(p, q) && b < |p| && forall i :: 0 <= i < |list| ==> list[i] < |q|
    ensures b in Renamed(list, q) <==> p[b] in list
  {
    if b in Renamed(list, q) {
      var i :| 0 <= i < |list| && Renamed(list, q)[i] == b;
      InverseBack(p, q, list[i]);
    }
    if p[b] in list {
      var i :| 0 <= i < |list| && list[i] == p[b];
      assert Renamed(list, q)[i] == b;
    }
  }

  ghost predicate Distinct(s: seq<nat>) {
    forall i, j :: 0 <= i < j < |s| ==> s[i] != s[j]
  }

  lemma RenamedDistinct(list: seq<nat>, p: seq<nat>, q: seq<nat>)
    requires Inverse(p, q) && Distinct(list) && forall i :: 0 <= i < |list| ==> list[i] < |q|
    ensures Distinct(Renamed(list, q))
  {
    forall i, j | 0 <= i < j < |list| ensures q[list[i]] != q[list[j]] {
      InverseBack(p, q, list[i]);
      InverseBack(p, q, list[j]);
    }
  }

  predicate AtMost(x: nat, y: nat) {
    x <= y
  }

  method SortList(s: seq<nat>) returns (r: seq<nat>)
    requires Distinct(s)
    ensures Increasing(r) && |r| == |s| && forall x :: x in r <==> x in s
  {
    r := Sort(s, AtMost);
    DistinctIncreases(s, r);
  }

  // Rearranging distinct elements keeps them distinct.
  lemma DistinctIncreases(s: seq<nat>, r: seq<nat>)
    requires Distinct(s) && multiset(r) == multiset(s) && SortedBy(r, AtMost)
    ensures Increasing(r)
  {
    forall i, j | 0 <= i < j < |r| ensures r[i] < r[j] {
      assert AtMost(r[i], r[j]);
      if r[i] == r[j] {
        TwiceInMultiset(r, i, j);
        OnceInMultiset(s, r[i]);
      }
    }
  }

  lemma TwiceInMultiset(r: seq<nat>, i: nat, j: nat)
    requires i < j < |r| && r[i] == r[j]
    ensures multiset(r)[r[i]] >= 2
  {
    assert r == r[..i] + [r[i]] + r[i + 1..j] + [r[j]] + r[j + 1..];
  }

  lemma {:induction false} OnceInMultiset(s: seq<nat>, x: nat)
    requires Distinct(s)
    ensures multiset(s)[x] <= 1
  {
    if s != [] {
      var n := |s| - 1;
      assert s == s[..n] + [s[n]];
      OnceInMultiset(s[..n], x);
    }
  }

  // ---------------------------------------------------------------------
  // The arrays.
  // ---------------------------------------------------------------------

  method PermuteDegrees(degree: array<nat>, p: seq<nat>)
    requires degree.Length == |p| && Permutation(p)
    modifies degree
    ensures forall v :: 0 <= v < |p| ==> degree[v] == old(degree[p[v]])
  {
    var oldDegree := degree[..];
    var v := 0;
    while v < |p|
      invariant 0 <= v <= |p|
      invariant forall w :: 0 <= w < v ==> degree[w] == oldDegree[p[w]]
    {
      degree[v] := oldDegree[p[v]];
      v := v + 1;
    }
  }

  // One list, renamed, to the next free place.
  method RenameList(adj: array<nat>, oldAdj: seq<nat>, base: nat, len: nat, start: nat, q: seq<nat>, ghost list: seq<nat>)
    requires base + len <= |oldAdj| && start + len <= adj.Length && oldAdj[base..base + len] == list
    requires forall i :: 0 <= i < |list| ==> list[i] < |q|
    modifies adj
    ensures adj[..start + len] == old(adj[..start]) + Renamed(list, q)
  {
    var i := 0;
    while i < len
      invariant 0 <= i <= len
      invariant adj[..start + i] == old(adj[..start]) + Renamed(list, q)[..i]
    {
      assert oldAdj[base + i] == list[i];
      adj[start + i] := q[oldAdj[base + i]];
      i := i + 1;
    }
    assert Renamed(list, q)[..len] == Renamed(list, q);
  }

  // Puts one list where another of its length stands, between a and c.
  method PutSlice<T>(data: array<T>, n: nat, lo: nat, r: seq<T>, ghost a: seq<T>, ghost b: seq<T>, ghost c: seq<T>)
    requires n <= data.Length && data[..n] == a + b + c && lo == |a| && |r| == |b|
    modifies data
    ensures data[..n] == a + r + c
  {
    var i := 0;
    while i < |r|
      invariant 0 <= i <= |r| == |b|
      invariant data[..n] == a + r[..i] + b[i..] + c
    {
      assert a + r[..i + 1] + b[i + 1..] + c == (a + r[..i] + b[i..] + c)[lo + i := r[i]];
      data[lo + i] := r[i];
      i := i + 1;
    }
    assert r[..i] == r && b[i..] == [];
    assert a + r + [] + c == a + r + c;
  }

  // Sorts one list where it stands.
  method SortSlice(adj: array<nat>, n: nat, lo: nat, hi: nat, ghost a: seq<nat>, ghost b: seq<nat>, ghost c: seq<nat>)
    returns (ghost sorted: seq<nat>)
    requires n <= adj.Length && adj[..n] == a + b + c && lo == |a| && hi == |a| + |b| && Distinct(b)
    modifies adj
    ensures SortedFrom(sorted, b)
    ensures adj[..n] == a + sorted + c
  {
    assert adj[lo..hi] == adj[..n][lo..hi] == b;
    var r := SortList(adj[lo..hi]);
    sorted := r;
    PutSlice(adj, n, lo, r, a, b, c);
  }

  ghost predicate SortedFrom(r: seq<nat>, s: seq<nat>) {
    Increasing(r) && |r| == |s| && forall x :: x in r <==> x in s
  }

  // The renamed lists in their new order.
  ghost function Moved(lists: seq<seq<nat>>, p: seq<nat>, q: seq<nat>): (r: seq<seq<nat>>)
    requires Inverse(p, q) && |lists| == |p| && InRange(lists)
    ensures |r| == |p| && forall v :: 0 <= v < |p| ==> r[v] == Renamed(lists[p[v]], q)
  {
    seq(|p|, v requires 0 <= v < |p| => Renamed(lists[p[v]], q))
  }

  ghost predicate InRange(lists: seq<seq<nat>>) {
    forall u, i :: 0 <= u < |lists| && 0 <= i < |lists[u]| ==> lists[u][i] < |lists|
  }

  lemma MovedTotal(lists: seq<seq<nat>>, p: seq<nat>, q: seq<nat>)
    requires Inverse(p, q) && |lists| == |p| && InRange(lists)
    ensures Total(Moved(lists, p, q), |p|) == Total(lists, |p|)
  {
    TotalReordered(lists, p);
    TotalSame(Moved(lists, p, q), Reordered(lists, p), |p|);
  }

  lemma SliceOfList<T>(lists: seq<seq<T>>, u: nat, flat: seq<T>)
    requires u < |lists| && flat == Flat(lists, |lists|)
    ensures Total(lists, u) + |lists[u]| <= |flat|
    ensures flat[Total(lists, u)..Total(lists, u) + |lists[u]|] == lists[u]
  {
    FlatHolds(lists, u, |lists|);
  }

  // The list of old vertex u goes to the place of new vertex v.
  method MoveOne(adj: array<nat>, oldAdj: seq<nat>, base: nat, len: nat, start: nat, q: seq<nat>,
                 ghost lists: seq<seq<nat>>, ghost u: nat, ghost moved: seq<seq<nat>>, ghost v: nat)
    requires oldAdj == Flat(lists, |lists|) && u < |lists| && base == Total(lists, u) && len == |lists[u]|
    requires forall i :: 0 <= i < |lists[u]| ==> lists[u][i] < |q|
    requires v < |moved| && moved[v] == Renamed(lists[u], q) && start == Total(moved, v) && start + len <= adj.Length
    requires adj[..start] == Flat(moved, v)
    modifies adj
    ensures adj[..start + len] == Flat(moved, v + 1) && start + len == Total(moved, v + 1)
  {
    SliceOfList(lists, u, oldAdj);
    RenameList(adj, oldAdj, base, len, start, q, lists[u]);
  }

  // Step one: the renamed lists, one after the other, where the old ones were.
  method MoveLists(degree: array<nat>, offset: array<nat>, adj: array<nat>, numEdges: nat, p: seq<nat>, q: seq<nat>, ghost lists: seq<seq<nat>>)
    requires Inverse(p, q) && |lists| == |p| && InRange(lists) && degree != adj && offset != adj && degree != offset
    requires degree[..] == Degrees(lists) && offset.Length == |p| + 1 && numEdges <= adj.Length
    requires forall v {:trigger offset[v]} :: 0 <= v <= |p| ==> offset[v] == Total(lists, v)
    requires numEdges == Total(lists, |p|) && adj[..numEdges] == Flat(lists, |p|)
    modifies degree, adj
    ensures degree[..] == Degrees(Moved(lists, p, q))
    ensures Total(Moved(lists, p, q), |p|) == numEdges && adj[..numEdges] == Flat(Moved(lists, p, q), |p|)
  {
    ghost var moved := Moved(lists, p, q);
    MovedTotal(lists, p, q);
    PermuteDegrees(degree, p);
    assert degree[..] == Degrees(moved);
    MoveAll(degree, offset, adj, numEdges, p, q, lists, moved);
  }

  // Every element of every list has a new name.
  ghost predicate Named(lists: seq<seq<nat>>, n: nat) {
    forall u, i :: 0 <= u < |lists| && 0 <= i < |lists[u]| ==> lists[u][i] < n
  }

  // The next list, at the place o.
  method MoveNext(degree: array<nat>, offset: array<nat>, adj: array<nat>, oldAdj: seq<nat>, o: nat, v: nat, p: seq<nat>, q: seq<nat>,
                  ghost lists: seq<seq<nat>>, ghost moved: seq<seq<nat>>) returns (o': nat)
    requires |p| == |lists| == |moved| && v < |p| && p[v] < |p| && Named(lists, |q|)
    requires moved[v] == Renamed(lists[p[v]], q) && degree != adj && offset != adj && degree[..] == Degrees(moved)
    requires p[v] < offset.Length && offset[p[v]] == Total(lists, p[v]) && Total(moved, |p|) <= adj.Length
    requires oldAdj == Flat(lists, |lists|) && o == Total(moved, v) <= adj.Length && adj[..o] == Flat(moved, v)
    modifies adj
    ensures o' == Total(moved, v + 1) <= adj.Length && adj[..o'] == Flat(moved, v + 1)
  {
    TotalGrows(moved, v + 1, |p|);
    var len := degree[v];
    assert len == degree[..][v] == |moved[v]|;
    MoveOne(adj, oldAdj, offset[p[v]], len, o, q, lists, p[v], moved, v);
    o' := o + len;
  }

  method MoveAll(degree: array<nat>, offset: array<nat>, adj: array<nat>, numEdges: nat, p: seq<nat>, q: seq<nat>,
                 ghost lists: seq<seq<nat>>, ghost moved: seq<seq<nat>>)
    requires |p| == |lists| == |moved| && forall v :: 0 <= v < |p| ==> p[v] < |p|
    requires Named(lists, |q|) && forall v :: 0 <= v < |p| ==> moved[v] == Renamed(lists[p[v]], q)
    requires degree != adj && offset != adj && degree[..] == Degrees(moved)
    requires offset.Length == |p| + 1 && forall v {:trigger offset[v]} :: 0 <= v <= |p| ==> offset[v] == Total(lists, v)
    requires numEdges == Total(moved, |p|) <= adj.Length && adj[..numEdges] == Flat(lists, |lists|)
    modifies adj
    ensures adj[..numEdges] == Flat(moved, |p|)
  {
    var oldAdj := adj[..numEdges];
    var o := 0;
    var v := 0;
    while v < |p|
      invariant 0 <= v <= |p| && o == Total(moved, v) <= adj.Length
      invariant adj[..o] == Flat(moved, v)
    {
      o := MoveNext(degree, offset, adj, oldAdj, o, v, p, q, lists, moved);
      v := v + 1;
    }
  }

  // The lists from v on, one after the other.
  function Tail<T>(lists: seq<seq<T>>, v: nat): seq<T>
    requires v <= |lists|
    decreases |lists| - v
  {
    if v == |lists| then [] else lists[v] + Tail(lists, v + 1)
  }

  lemma {:induction false} FlatAndTail<T>(lists: seq<seq<T>>, v: nat)
    requires v <= |lists|
    ensures Flat(lists, v) + Tail(lists, v) == Flat(lists, |lists|)
    decreases |lists| - v
  {
    if v < |lists| {
      FlatAndTail(lists, v + 1);
      assert Flat(lists, v) + (lists[v] + Tail(lists, v + 1)) == (Flat(lists, v) + lists[v]) + Tail(lists, v + 1);
    }
  }

  // Step two so far: the lists in sorted have been sorted in their places.
  ghost predicate HalfSorted(flat: seq<nat>, moved: seq<seq<nat>>, sorted: seq<seq<nat>>) {
    && |sorted| <= |moved| && (forall v :: 0 <= v < |sorted| ==> SortedFrom(sorted[v], moved[v]))
    && Total(moved, |sorted|) == Total(sorted, |sorted|)
    && flat == Flat(sorted, |sorted|) + Tail(moved, |sorted|)
  }

  ghost predicate OffsetsUpTo(offset: seq<nat>, lists: seq<seq<nat>>, v: nat) {
    v <= |lists| && |offset| == |lists| + 1 && forall w :: 0 <= w <= v ==> offset[w] == Total(lists, w)
  }

  lemma HalfSortedNext(flat: seq<nat>, flat': seq<nat>, moved: seq<seq<nat>>, sorted: seq<seq<nat>>, one: seq<nat>)
    requires HalfSorted(flat, moved, sorted) && |sorted| < |moved| && SortedFrom(one, moved[|sorted|])
    requires flat' == Flat(sorted, |sorted|) + one + Tail(moved, |sorted| + 1)
    ensures HalfSorted(flat', moved, sorted + [one])
  {
    FlatMore(sorted, one);
  }

  lemma OffsetsNext(offset: seq<nat>, lists: seq<seq<nat>>, v: nat)
    requires OffsetsUpTo(offset, lists, v) && v < |lists|
    ensures OffsetsUpTo(offset[v + 1 := |lists[v]| + offset[v]], lists, v + 1)
  {
  }

  // One round of step two: the end of the next list, and the list sorted.
  method SortNext(degree: array<nat>, offset: array<nat>, adj: array<nat>, numEdges: nat, v: nat, ghost moved: seq<seq<nat>>, ghost sorted: seq<seq<nat>>)
    returns (ghost one: seq<nat>)
    requires degree != adj && offset != adj && degree != offset && v == |sorted| < |moved|
    requires degree[..] == Degrees(moved) && numEdges <= adj.Length && Distinct(moved[v])
    requires OffsetsUpTo(offset[..], moved, v) && HalfSorted(adj[..numEdges], moved, sorted)
    modifies offset, adj
    ensures OffsetsUpTo(offset[..], moved, v + 1) && HalfSorted(adj[..numEdges], moved, sorted + [one])
  {
    ghost var flat := adj[..numEdges];
    ghost var a, b, c := Flat(sorted, v), moved[v], Tail(moved, v + 1);
    assert a + (b + c) == a + b + c;
    assert degree[v] == degree[..][v] == |b| && offset[v] == offset[..][v] == |a|;
    OffsetsNext(offset[..], moved, v);
    ghost var next := offset[..][v + 1 := |moved[v]| + offset[v]];
    offset[v + 1] := degree[v] + offset[v];
    assert offset[..] == next;
    one := SortSlice(adj, numEdges, offset[v], offset[v + 1], a, b, c);
    HalfSortedNext(flat, adj[..numEdges], moved, sorted, one);
  }

  lemma SortedAll(flat: seq<nat>, moved: seq<seq<nat>>, sorted: seq<seq<nat>>)
    requires HalfSorted(flat, moved, sorted) && |sorted| == |moved|
    ensures flat == Flat(sorted, |moved|) && forall v :: 0 <= v < |moved| ==> SortedFrom(sorted[v], moved[v])
  {
    assert Flat(sorted, |moved|) + [] == Flat(sorted, |moved|);
  }

  // Step two: the new offsets, and every list sorted in its place.
  method SortLists(degree: array<nat>, offset: array<nat>, adj: array<nat>, numEdges: nat, ghost moved: seq<seq<nat>>)
    returns (ghost sorted: seq<seq<nat>>)
    requires degree != adj && offset != adj && degree != offset
    requires degree[..] == Degrees(moved) && offset.Length == |moved| + 1 && numEdges <= adj.Length
    requires Total(moved, |moved|) == numEdges && adj[..numEdges] == Flat(moved, |moved|)
    requires forall v :: 0 <= v < |moved| ==> Distinct(moved[v])
    modifies offset, adj
    ensures |sorted| == |moved| && forall v :: 0 <= v < |moved| ==> SortedFrom(sorted[v], moved[v])
    ensures OffsetsUpTo(offset[..], moved, |moved|)
    ensures adj[..numEdges] == Flat(sorted, |moved|)
  {
    sorted := [];
    offset[0] := 0;
    FlatAndTail(moved, 0);
    var v := 0;
    while v < degree.Length
      invariant 0 <= v <= |moved| && |sorted| == v
      invariant OffsetsUpTo(offset[..], moved, v) && HalfSorted(adj[..numEdges], moved, sorted)
    {
      ghost var one := SortNext(degree, offset, adj, numEdges, v, moved, sorted);
      sorted := sorted + [one];
      v := v + 1;
    }
    SortedAll(adj[..numEdges], moved, sorted);
  }

  lemma FlatMore<T>(lists: seq<seq<T>>, one: seq<T>)
    ensures Flat(lists + [one], |lists| + 1) == Flat(lists, |lists|) + one
    ensures Total(lists + [one], |lists| + 1) == Total(lists, |lists|) + |one|
  {
    FlatPrefix(lists, [one], |lists|);
  }

  lemma {:induction false} FlatPrefix<T>(lists: seq<seq<T>>, more: seq<seq<T>>, n: nat)
    requires n <= |lists|
    ensures Flat(lists + more, n) == Flat(lists, n)
    ensures Total(lists + more, n) == Total(lists, n)
  {
    if n > 0 { FlatPrefix(lists, more, n - 1); }
  }

  // What the lists mean before and after.
  lemma SameGraph(lists: seq<seq<nat>>, sorted: seq<seq<nat>>, p: seq<nat>, q: seq<nat>, a: nat, b: nat)
    requires Inverse(p, q) && |lists| == |p| == |sorted| && InRange(lists) && a < |p|
    requires forall v :: 0 <= v < |p| ==> SortedFrom(sorted[v], Moved(lists, p, q)[v])
    ensures b in sorted[a] ==> b < |p|
    ensures b < |p| ==> (b in sorted[a] <==> p[b] in lists[p[a]])
  {
    if b < |p| {
      RenamedHolds(lists[p[a]], p, q, b);
    } else if b in sorted[a] {
      var i :| 0 <= i < |lists[p[a]]| && Renamed(lists[p[a]], q)[i] == b;
      InverseBack(p, q, lists[p[a]][i]);
    }
  }

  // The lists that offsets cut an array into.
  ghost predicate SliceAt<T>(offset: seq<nat>, adj: seq<T>, u: nat) {
    u + 1 < |offset| && offset[u] <= offset[u + 1] <= |adj|
  }

  ghost predicate Offsets<T>(offset: seq<nat>, adj: seq<T>) {
    |offset| > 0 && offset[0] == 0 && forall u: nat :: u < |offset| - 1 ==> SliceAt(offset, adj, u)
  }

  ghost function Slice<T>(offset: seq<nat>, adj: seq<T>, u: nat): seq<T>
    requires SliceAt(offset, adj, u)
  {
    adj[offset[u]..offset[u + 1]]
  }

  ghost function Cut<T>(offset: seq<nat>, adj: seq<T>, n: nat): (lists: seq<seq<T>>)
    requires Offsets(offset, adj) && n < |offset|
    ensures |lists| == n && forall u: nat :: u < n ==> SliceAt(offset, adj, u) && lists[u] == Slice(offset, adj, u)
  {
    if n == 0 then []
    else
      assert SliceAt(offset, adj, n - 1);
      Cut(offset, adj, n - 1) + [Slice(offset, adj, n - 1)]
  }

  lemma {:induction false} CutHolds<T>(offset: seq<nat>, adj: seq<T>, n: nat)
    requires Offsets(offset, adj) && n < |offset|
    ensures offset[n] <= |adj| && Total(Cut(offset, adj, n), n) == offset[n]
    ensures Flat(Cut(offset, adj, n), n) == adj[..offset[n]]
  {
    if n > 0 {
      CutHolds(offset, adj, n - 1);
      assert SliceAt(offset, adj, n - 1);
      FlatMore(Cut(offset, adj, n - 1), Slice(offset, adj, n - 1));
    }
  }

  lemma CutTotal<T>(offset: seq<nat>, adj: seq<T>, n: nat, v: nat)
    requires Offsets(offset, adj) && v <= n < |offset|
    ensures Total(Cut(offset, adj, n), v) == offset[v]
  {
    CutHolds(offset, adj, v);
    forall u | 0 <= u < v ensures Cut(offset, adj, n)[u] == Cut(offset, adj, v)[u] {}
    TotalSame(Cut(offset, adj, n), Cut(offset, adj, v), v);
  }

  // The arrays of a graph, seen as lists.
  ghost predicate Holds(degree: array<nat>, offset: array<nat>, adj: array<nat>, numEdges: nat, lists: seq<seq<nat>>)
    reads degree, offset, adj
  {
    && degree[..] == Degrees(lists) && offset.Length == |lists| + 1 && numEdges <= adj.Length
    && (forall v {:trigger offset[v]} :: 0 <= v <= |lists| ==> offset[v] == Total(lists, v))
    && numEdges == Total(lists, |lists|) && adj[..numEdges] == Flat(lists, |lists|)
  }

  lemma CutNeighbors(g: Graph, u: nat)
    requires g.Valid() && u < g.numVertices
    ensures SliceAt(g.offset[..], g.adj[..], u) && Slice(g.offset[..], g.adj[..], u) == g.Neighbors(u)
    ensures g.degree[u] == |g.Neighbors(u)|
  {
    assert g.adj[..][g.offset[u]..g.offset[u + 1]] == g.adj[g.offset[u]..g.offset[u + 1]];
  }

  lemma TakeLists(g: Graph) returns (lists: seq<seq<nat>>)
    requires g.Valid()
    ensures Holds(g.degree, g.offset, g.adj, g.numEdges, lists)
    ensures |lists| == g.numVertices && forall u :: 0 <= u < g.numVertices ==> lists[u] == g.Neighbors(u)
  {
    var n, offset, adj := g.numVertices, g.offset[..], g.adj[..];
    forall u: nat | u < n ensures SliceAt(offset, adj, u) { CutNeighbors(g, u); }
    lists := Cut(offset, adj, n);
    CutHolds(offset, adj, n);
    forall v | 0 <= v <= n ensures g.offset[v] == Total(lists, v) { CutTotal(offset, adj, n, v); }
    forall u | 0 <= u < n ensures lists[u] == g.Neighbors(u) && g.degree[u] == |lists[u]| { CutNeighbors(g, u); }
    assert g.adj[..g.numEdges] == adj[..offset[n]];
  }

  lemma SortedHolds(degree: array<nat>, offset: array<nat>, adj: array<nat>, numEdges: nat, moved: seq<seq<nat>>, sorted: seq<seq<nat>>)
    requires |moved| == |sorted| && forall v :: 0 <= v < |moved| ==> SortedFrom(sorted[v], moved[v])
    requires degree[..] == Degrees(moved) && offset.Length == |moved| + 1 && numEdges <= adj.Length
    requires OffsetsUpTo(offset[..], moved, |moved|)
    requires numEdges == Total(moved, |moved|) && adj[..numEdges] == Flat(sorted, |moved|)
    ensures Holds(degree, offset, adj, numEdges, sorted)
  {
    forall v | 0 <= v <= |moved| ensures offset[v] == Total(sorted, v) {
      assert offset[..][v] == Total(moved, v);
      TotalSame(moved, sorted, v);
    }
    TotalSame(moved, sorted, |moved|);
  }

  // Lists of neighbours that exist, none of them twice.
  ghost predicate PlainLists(lists: seq<seq<nat>>) {
    InRange(lists) && forall u :: 0 <= u < |lists| ==> Distinct(lists[u])
  }

  ghost predicate Plain(g: Graph)
    requires g.Valid()
    reads g, g.degree, g.offset, g.adj
  {
    && (forall u: nat, v: nat :: u < g.numVertices && v in g.Neighbors(u) ==> v < g.numVertices)
    && (forall u: nat :: u < g.numVertices ==> Distinct(g.Neighbors(u)))
  }

  lemma PlainGraph(g: Graph, lists: seq<seq<nat>>)
    requires g.Valid() && Plain(g)
    requires |lists| == g.numVertices && forall u :: 0 <= u < g.numVertices ==> lists[u] == g.Neighbors(u)
    ensures PlainLists(lists)
  {
    forall u: nat, i: nat | u < |lists| && i < |lists[u]| ensures lists[u][i] < |lists| {
      assert lists[u][i] in g.Neighbors(u);
    }
  }

  lemma PutLists(g: Graph, lists: seq<seq<nat>>)
    requires Holds(g.degree, g.offset, g.adj, g.numEdges, lists) && InRange(lists)
    requires |lists| == g.numVertices
    ensures g.Valid() && forall u :: 0 <= u < g.numVertices ==> g.Neighbors(u) == lists[u]
  {
    g.ArraysHold(lists);
  }

  lemma MovedDistinct(lists: seq<seq<nat>>, p: seq<nat>, q: seq<nat>)
    requires Inverse(p, q) && |lists| == |p| && PlainLists(lists)
    ensures forall v :: 0 <= v < |p| ==> Distinct(Moved(lists, p, q)[v])
  {
    forall v | 0 <= v < |p| ensures Distinct(Moved(lists, p, q)[v]) { RenamedDistinct(lists[p[v]], p, q); }
  }

  lemma SortedSame(lists: seq<seq<nat>>, sorted: seq<seq<nat>>, p: seq<nat>, q: seq<nat>)
    requires Inverse(p, q) && |lists| == |p| == |sorted| && PlainLists(lists)
    requires forall v :: 0 <= v < |p| ==> SortedFrom(sorted[v], Moved(lists, p, q)[v])
    ensures InRange(sorted)
    ensures forall a: nat, b: nat :: a < |p| && b < |p| ==> (b in sorted[a] <==> p[b] in lists[p[a]])
  {
    forall a: nat, b: nat | a < |p|
      ensures b in sorted[a] ==> b < |p|
      ensures b < |p| ==> (b in sorted[a] <==> p[b] in lists[p[a]])
    {
      SameGraph(lists, sorted, p, q, a, b);
    }
    forall u: nat, i: nat | u < |sorted| && i < |sorted[u]| ensures sorted[u][i] < |sorted| {
      SameGraph(lists, sorted, p, q, u, sorted[u][i]);
    }
  }
}
