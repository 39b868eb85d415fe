/**
 * The host graph: an edge list is normalised, sorted and turned into CSR arrays
 * (`load_edge_list`), and neighbours are looked up by binary search
 * (`is_neighbor`). No neighbour list is ever sorted; the order in which the
 * edges are taken makes every one of them strictly increasing.
 */
module CsrGraph {
  import S = Sorting

  datatype Pair = Pair(src: nat, dst: nat)

  predicate Less(a: Pair, b: Pair) {
    a.src < b.src || (a.src == b.src && a.dst < b.dst)
  }

  predicate NotAfter(a: Pair, b: Pair) {
    a == b || Less(a, b)
  }

  // The edge between two vertices in the direction it is stored.
  function Between(u: nat, v: nat): Pair {
    if u <= v then Pair(u, v) else Pair(v, u)
  }

  ghost predicate Normal(edges: seq<Pair>, n: nat) {
    forall k :: 0 <= k < |edges| ==> edges[k].src <= edges[k].dst < n
  }

  ghost predicate Sorted(edges: seq<Pair>) {
    forall j, k :: 0 <= j <= k < |edges| ==> NotAfter(edges[j], edges[k])
  }

  // The reading loop: each line's smaller end goes first.
  method Normalise(lines: seq<(nat, nat)>) returns (edges: seq<Pair>, maxVertexId: nat)
    ensures Normal(edges, maxVertexId + 1) && |edges| == |lines|
    ensures forall k :: 0 <= k < |lines| ==> edges[k] == Between(lines[k].0, lines[k].1)
  {
    edges, maxVertexId := [], 0;
    var k := 0;
    while k < |lines|
      invariant 0 <= k <= |lines| && |edges| == k && Normal(edges, maxVertexId + 1)
      invariant forall j :: 0 <= j < k ==> edges[j] == Between(lines[j].0, lines[j].1)
    {
      var (src, dst) := lines[k];
      if src > dst { src, dst := dst, src; }
      edges := edges + [Pair(src, dst)];
      if src > maxVertexId { maxVertexId := src; }
      if dst > maxVertexId { maxVertexId := dst; }
      k := k + 1;
    }
  }

  method SortEdges(edges: seq<Pair>) returns (r: seq<Pair>)
    ensures Sorted(r) && |r| == |edges| && forall x :: x in r <==> x in edges
  {
    r := S.Sort(edges, NotAfter);
  }

  // ---------------------------------------------------------------------
  // Neighbour lists.
  // ---------------------------------------------------------------------

  ghost predicate Increasing(s: seq<nat>) {
    forall i, j :: 0 <= i < j < |s| ==> s[i] < s[j]
  }

  // The lists hold exactly the edges seen, from both ends and without loops.
  ghost predicate Adjacent(adj: seq<seq<nat>>, seen: set<Pair>) {
    forall u: nat, v: nat :: u < |adj| ==> (v in adj[u] <==> u != v && Between(u, v) in seen)
  }

  ghost predicate Lists(adj: seq<seq<nat>>, seen: set<Pair>, n: nat) {
    && |adj| == n && Adjacent(adj, seen)
    && forall u :: 0 <= u < n ==> Increasing(adj[u])
  }

  function Pushed(adj: seq<seq<nat>>, e: Pair): seq<seq<nat>>
    requires e.src < |adj| && e.dst < |adj|
  {
    var a := adj[e.src := adj[e.src] + [e.dst]];
    a[e.dst := a[e.dst] + [e.src]]
  }

  // An edge after all those seen goes to the end of both its lists.
  lemma PushKeepsLists(adj: seq<seq<nat>>, seen: set<Pair>, n: nat, e: Pair)
    requires Lists(adj, seen, n) && e.src < e.dst < n && forall x :: x in seen ==> Less(x, e)
    ensures Lists(Pushed(adj, e), seen + {e}, n)
  {
    var adj' := Pushed(adj, e);
    forall u: nat, v: nat | u < n ensures v in adj'[u] <==> u != v && Between(u, v) in seen + {e} {
      assert v in adj[u] <==> u != v && Between(u, v) in seen;
    }
    forall u | 0 <= u < n ensures Increasing(adj'[u]) {
      var v := if u == e.src then e.dst else e.src;
      if u == e.src || u == e.dst {
        forall i | 0 <= i < |adj[u]| ensures adj[u][i] < v {
          assert adj[u][i] in adj[u];
          assert Less(Between(u, adj[u][i]), e);
        }
      }
    }
  }

  // The distinct, non-loop edges among the first n.
  ghost function Seen(edges: seq<Pair>, n: nat): set<Pair>
    requires n <= |edges|
  {
    set k | 0 <= k < n && edges[k].src != edges[k].dst :: edges[k]
  }

  lemma SeenStep(edges: seq<Pair>, n: nat)
    requires n < |edges|
    ensures Seen(edges, n + 1) == if edges[n].src != edges[n].dst then Seen(edges, n) + {edges[n]} else Seen(edges, n)
  {
  }

  function Degrees(adj: seq<seq<nat>>): (d: seq<nat>)
    ensures |d| == |adj| && forall v :: 0 <= v < |adj| ==> d[v] == |adj[v]|
  {
    seq(|adj|, v requires 0 <= v < |adj| => |adj[v]|)
  }

  // The loop over the sorted edges, dropping parallel edges and loops.
  method BuildLists(edges: seq<Pair>, n: nat) returns (adj: seq<seq<nat>>, degree: seq<nat>)
    requires Normal(edges, n) && Sorted(edges)
    ensures Lists(adj, Seen(edges, |edges|), n)
    ensures degree == Degrees(adj)
  {
    adj := seq(n, _ => []);
    degree := seq(n, _ => 0);
    var prev := Pair(n, n);
    var k := 0;
    while k < |edges|
      invariant 0 <= k <= |edges|
      invariant prev == if k == 0 then Pair(n, n) else edges[k - 1]
      invariant Lists(adj, Seen(edges, k), n)
      invariant degree == Degrees(adj)
    {
      var edge := edges[k];
      SeenStep(edges, k);
      if prev != edge {
        prev := edge;
        if edge.src != edge.dst {
          NewEdgeIsLast(edges, k);
          PushKeepsLists(adj, Seen(edges, k), n, edge);
          degree := degree[edge.src := degree[edge.src] + 1];
          degree := degree[edge.dst := degree[edge.dst] + 1];
          adj := Pushed(adj, edge);
          assert degree == Degrees(adj);
        }
      } else {
        assert edge.src != edge.dst ==> edges[k - 1] in Seen(edges, k);
      }
      k := k + 1;
    }
  }

  lemma NewEdgeIsLast(edges: seq<Pair>, k: nat)
    requires Sorted(edges) && k < |edges| && (k > 0 ==> edges[k - 1] != edges[k])
    ensures forall x :: x in Seen(edges, k) ==> Less(x, edges[k])
  {
    forall x | x in Seen(edges, k) ensures Less(x, edges[k]) {
      var j :| 0 <= j < k && edges[j] == x;
      assert NotAfter(edges[j], edges[k - 1]) && NotAfter(edges[k - 1], edges[k]);
    }
  }

  // ---------------------------------------------------------------------
  // The arrays.
  // ---------------------------------------------------------------------

  function Total<T>(lists: seq<seq<T>>, n: nat): nat
    requires n <= |lists|
  {
    if n == 0 then 0 else Total(lists, n - 1) + |lists[n - 1]|
  }

  lemma {:induction false} TotalGrows<T>(lists: seq<seq<T>>, m: nat, n: nat)
    requires m <= n <= |lists|
    ensures Total(lists, m) <= Total(lists, n)
  {
    if m < n { TotalGrows(lists, m, n - 1); }
  }

  // All lists one after the other.
  function Flat<T>(lists: seq<seq<T>>, n: nat): (f: seq<T>)
    requires n <= |lists|
    ensures |f| == Total(lists, n)
  {
    if n == 0 then [] else Flat(lists, n - 1) + lists[n - 1]
  }

  lemma {:induction false} FlatHolds<T>(lists: seq<seq<T>>, u: nat, n: nat)
    requires u < n <= |lists|
    ensures Total(lists, u + 1) <= Total(lists, n)
    ensures Flat(lists, n)[Total(lists, u)..Total(lists, u + 1)] == lists[u]
  {
    TotalGrows(lists, u + 1, n);
    if u + 1 < n {
      TotalGrows(lists, u + 1, n - 1);
      FlatHolds(lists, u, n - 1);
      assert Flat(lists, n)[Total(lists, u)..Total(lists, u + 1)] == Flat(lists, n - 1)[Total(lists, u)..Total(lists, u + 1)];
    }
  }

  method MakeArray(s: seq<nat>) returns (a: array<nat>)
    ensures fresh(a) && a[..] == s
  {
    a := new nat[|s|](i requires 0 <= i < |s| => s[i]);
  }

  method MakeOffsets(degree: seq<nat>, ghost lists: seq<seq<nat>>) returns (offset: array<nat>)
    requires degree == Degrees(lists)
    ensures fresh(offset) && offset.Length == |lists| + 1
    ensures forall v {:trigger offset[v]} :: 0 <= v <= |lists| ==> offset[v] == Total(lists, v)
  {
    offset := new nat[|degree| + 1](_ => 0);
    var i := 0;
    while i < |degree|
      invariant 0 <= i <= |degree|
      invariant forall v {:trigger offset[v]} :: 0 <= v <= i ==> offset[v] == Total(lists, v)
    {
      offset[i + 1] := offset[i] + degree[i];
      i := i + 1;
    }
  }

  method CopyList<T>(adj: array<T>, list: seq<T>, start: nat)
    requires start + |list| <= adj.Length
    modifies adj
    ensures adj[..start + |list|] == old(adj[..start]) + list
  {
    var k := 0;
    while k < |list|
      invariant 0 <= k <= |list|
      invariant adj[..start + k] == old(adj[..start]) + list[..k]
    {
      adj[start + k] := list[k];
      k := k + 1;
    }
    assert list[..k] == list;
  }

  // Copies every list to its place; sixteen spare elements stay at the end.
  method MakeAdjacency(lists: seq<seq<nat>>, offset: array<nat>) returns (adj: array<nat>)
    requires offset.Length == |lists| + 1 && forall v {:trigger offset[v]} :: 0 <= v <= |lists| ==> offset[v] == Total(lists, v)
    ensures fresh(adj) && adj.Length == Total(lists, |lists|) + 16
    ensures adj[..Total(lists, |lists|)] == Flat(lists, |lists|)
  {
    adj := new nat[offset[|lists|] + 16](_ => 0);
    var i := 0;
    while i < |lists|
      invariant 0 <= i <= |lists| && Total(lists, i) <= adj.Length
      invariant adj[..Total(lists, i)] == Flat(lists, i)
    {
      TotalGrows(lists, i + 1, |lists|);
      CopyList(adj, lists[i], offset[i]);
      i := i + 1;
    }
  }

  class Graph {
    var numVertices: nat
    var numEdges: nat
    var degree: array<nat>
    var offset: array<nat>
    var adj: array<nat>

    // The offsets cut the adjacency array into one list per vertex.
    ghost predicate Valid()
      reads this, degree, offset, adj
    {
      && degree.Length == numVertices && offset.Length == numVertices + 1 && numEdges <= adj.Length
      && offset[0] == 0 && offset[numVertices] == numEdges
      && (forall u :: 0 <= u < numVertices ==> offset[u + 1] == offset[u] + degree[u] <= numEdges)
    }

    ghost function Neighbors(u: nat): seq<nat>
      requires Valid() && u < numVertices
      reads this, degree, offset, adj
    {
      adj[offset[u]..offset[u + 1]]
    }

    // Lists without loops or repetitions, each edge on both its ends' lists.
    ghost predicate Simple()
      requires Valid()
      reads this, degree, offset, adj
    {
      && (forall u :: 0 <= u < numVertices ==> Increasing(Neighbors(u)))
      && (forall u: nat, v: nat :: u < numVertices && v in Neighbors(u) ==> v < numVertices)
      && (forall u: nat, v: nat :: u < numVertices && v < numVertices ==> (v in Neighbors(u) <==> u in Neighbors(v)))
    }

    constructor ()
      ensures Valid() && numVertices == 0 && numEdges == 0
    {
      numVertices, numEdges := 0, 0;
      degree := new nat[0];
      offset := new nat[1](_ => 0);
      adj := new nat[16](_ => 0);
    }

    // The list of one vertex, where the arrays hold the given lists.
    lemma ListAt(lists: seq<seq<nat>>, u: nat)
      requires u < |lists| && degree[..] == Degrees(lists) && numEdges == Total(lists, |lists|)
      requires offset.Length == |lists| + 1 && offset[u] == Total(lists, u) && offset[u + 1] == Total(lists, u + 1)
      requires numEdges <= adj.Length && adj[..numEdges] == Flat(lists, |lists|)
      ensures offset[u + 1] == offset[u] + degree[u] <= numEdges && adj[offset[u]..offset[u + 1]] == lists[u]
    {
      assert degree[u] == degree[..][u];
      FlatHolds(lists, u, |lists|);
      assert adj[offset[u]..offset[u + 1]] == adj[..numEdges][offset[u]..offset[u + 1]];
    }

    // The arrays hold the given lists.
    lemma ArraysHold(lists: seq<seq<nat>>)
      requires degree[..] == Degrees(lists) && numVertices == |lists| && numEdges == Total(lists, |lists|)
      requires offset.Length == |lists| + 1 && forall v {:trigger offset[v]} :: 0 <= v <= |lists| ==> offset[v] == Total(lists, v)
      requires numEdges <= adj.Length && adj[..numEdges] == Flat(lists, |lists|)
      ensures Valid() && forall u :: 0 <= u < numVertices ==> Neighbors(u) == lists[u]
    {
      assert offset[0] == Total(lists, 0) && offset[numVertices] == numEdges;
      forall u | 0 <= u < numVertices
        ensures offset[u + 1] == offset[u] + degree[u] <= numEdges && adj[offset[u]..offset[u + 1]] == lists[u]
      {
        ListAt(lists, u);
      }
    }

    method BuildArrays(lists: seq<seq<nat>>, degreeArr: seq<nat>)
      requires degreeArr == Degrees(lists)
      modifies this
      ensures fresh(degree) && fresh(offset) && fresh(adj)
      ensures numVertices == |lists| && adj.Length == numEdges + 16 && Valid() && forall u :: 0 <= u < numVertices ==> Neighbors(u) == lists[u]
    {
      numVertices := |degreeArr|;
      degree := MakeArray(degreeArr);
      offset := MakeOffsets(degreeArr, lists);
      numEdges := offset[numVertices];
      adj := MakeAdjacency(lists, offset);
      ArraysHold(lists);
    }

    // From a normalised edge list to CSR: the lists are strictly increasing,
    // and hold exactly the edges of the input that are not loops.
    method LoadEdgeList(edges: seq<Pair>, maxVertexId: nat)
      requires Normal(edges, maxVertexId + 1)
      modifies this
      ensures fresh(degree) && fresh(offset) && fresh(adj)
      ensures numVertices == maxVertexId + 1 && Valid() && Simple() && adj.Length == numEdges + 16
      ensures forall u: nat, v: nat :: u < numVertices ==> (v in Neighbors(u) <==> u != v && Between(u, v) in edges)
    {
      var sorted := SortEdges(edges);
      SortedIsNormal(sorted, edges, maxVertexId + 1);
      var adjArr, degreeArr := BuildLists(sorted, maxVertexId + 1);
      BuildArrays(adjArr, degreeArr);
      forall u: nat, v: nat | u < numVertices
        ensures v in adjArr[u] <==> u != v && Between(u, v) in edges
        ensures v in adjArr[u] ==> v < numVertices
      {
        SeenIs(sorted, edges, Between(u, v));
      }
    }

    method Degree(u: nat) returns (d: nat)
      requires Valid() && u < numVertices
      ensures d == |Neighbors(u)|
    {
      d := degree[u];
    }

    // Binary search in a neighbour list.
    method FindNeighbor(y: nat, x: nat) returns (found: bool)
      requires Valid() && y < numVertices && Increasing(Neighbors(y))
      ensures found <==> x in Neighbors(y)
    {
      ghost var nbrs := Neighbors(y);
      var start := offset[y];
      var begin: int, end: int := 0, degree[y] as int - 1;
      while begin <= end
        invariant 0 <= begin && -1 <= end < |nbrs|
        invariant forall k :: 0 <= k < |nbrs| && nbrs[k] == x ==> begin <= k <= end
        decreases end - begin + 1
      {
        var mid := begin + (end - begin) / 2;
        assert adj[start + mid] == nbrs[mid];
        if adj[start + mid] == x {
          return true;
        } else if adj[start + mid] > x {
          end := mid - 1;
        } else {
          begin := mid + 1;
        }
      }
      return false;
    }

    // Looks for one vertex in the shorter of the two lists.
    method IsNeighbor(u: nat, v: nat) returns (found: bool)
      requires Valid() && Simple() && u < numVertices && v < numVertices
      ensures found <==> v in Neighbors(u)
    {
      var x, y := u, v;
      var du := Degree(u);
      var dv := Degree(v);
      if du < dv { x, y := y, x; }
      found := FindNeighbor(y, x);
    }
  }

  lemma SortedIsNormal(sorted: seq<Pair>, edges: seq<Pair>, n: nat)
    requires Normal(edges, n) && forall x :: x in sorted <==> x in edges
    ensures Normal(sorted, n)
  {
    forall k | 0 <= k < |sorted| ensures sorted[k].src <= sorted[k].dst < n {
      assert sorted[k] in edges;
    }
  }

  lemma SeenIs(sorted: seq<Pair>, edges: seq<Pair>, e: Pair)
    requires forall x :: x in sorted <==> x in edges
    ensures e in Seen(sorted, |sorted|) <==> e.src != e.dst && e in edges
  {
    if e in edges {
      assert e in sorted;
      var k :| 0 <= k < |sorted| && sorted[k] == e;
    }
  }
}
