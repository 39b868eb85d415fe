/**
 * Writing one list as an edge file (`saveFile`), and what the gather kernel
 * makes of such a file: the padding is exactly what the end of the stream
 * takes away, so no edge is missed.
 */
module EdgeFile {
  import opened Partition
  import opened Sorting
  import D = DstProperty
  import E = EdgeStream
  import G = GatherKernel

  ghost predicate BySource(s: seq<Edge>) {
    forall i, j :: 0 <= i <= j < |s| ==> s[i].src <= s[j].src
  }

  method Merge(list: seq<Block>) returns (r: seq<Edge>)
    ensures multiset(r) == Edges(list)
  {
    r := [];
    var k := 0;
    while k < |list|
      invariant 0 <= k <= |list| && multiset(r) == Edges(list[..k])
    {
      EdgesSnoc(list[..k], list[k]);
      assert list[..k + 1] == list[..k] + [list[k]];
      r := r + list[k];
      k := k + 1;
    }
    assert list[..k] == list;
  }

  predicate NotAfter(a: Edge, b: Edge) {
    a.src <= b.src
  }

  method SortBySource(edges: seq<Edge>) returns (r: seq<Edge>)
    ensures BySource(r) && multiset(r) == multiset(edges)
  {
    r := Sort(edges, NotAfter);
    assert forall i, j :: 0 <= i <= j < |r| ==> NotAfter(r[i], r[j]);
  }

  // A file: its header, which counts the records, n edges sorted by source, and
  // at least 16 dummies with the last source that fill up to a multiple of 16.
  ghost predicate IsEdgeFile(file: seq<Edge>, n: nat) {
    && |file| > 0 && file[0] == Edge(|file| - 1, |file| - 1)
    && (|file| - 1) % 16 == 0 && n + 16 <= |file| - 1 <= n + 32
    && BySource(file[1..])
    && (forall k :: n < k < |file| ==> file[k].dst == -2 && file[k].src == if n == 0 then 0 else file[n].src)
  }

  // The real records of a file with n of them.
  function Records(file: seq<Edge>, n: nat): seq<Edge> {
    if n < |file| then file[1..n + 1] else []
  }

  // Fills up with dummies that repeat the last source.
  method Pad(sorted: seq<Edge>) returns (merged: seq<Edge>)
    requires BySource(sorted)
    ensures BySource(merged) && |merged| % 16 == 0 && |sorted| + 17 <= |merged| <= |sorted| + 32
    ensures |merged| == |sorted| + 32 - |sorted| % 16
    ensures merged[..|sorted|] == sorted
    ensures forall k :: |sorted| <= k < |merged| ==> merged[k] == Edge(if sorted == [] then 0 else sorted[|sorted| - 1].src, DUMMY)
  {
    merged := sorted;
    var a := if merged == [] then 0 else merged[|merged| - 1].src;
    var num := (16 - |merged| % 16) + 16;
    ghost var n := |merged|;
    var i := 0;
    while i < num
      invariant 0 <= i <= num && |merged| == n + i
      invariant merged[..n] == sorted
      invariant forall k :: 0 <= k < |merged| ==> merged[k].src <= a || n == 0
      invariant forall k :: n <= k < |merged| ==> merged[k] == Edge(a, DUMMY)
      invariant BySource(merged)
    {
      merged := merged + [Edge(a, DUMMY)];
      i := i + 1;
    }
  }

  method SaveFile(list: seq<Block>) returns (file: seq<Edge>, ghost n: nat)
    ensures IsEdgeFile(file, n) && |file| - 1 == n + 32 - n % 16
    ensures multiset(file[1..n + 1]) == Edges(list)
  {
    var merged := Merge(list);
    merged := SortBySource(merged);
    n := |merged|;
    ghost var sorted := merged;
    merged := Pad(merged);
    var c := |merged|;
    file := [Edge(c, c)] + merged;
    assert file[1..] == merged;
    assert file[1..n + 1] == sorted;
  }

  // The integers the host hands to the kernel: the records after the header.
  function Words(file: seq<Edge>): (w: seq<int>)
    requires |file| > 0
    ensures |w| == 2 * (|file| - 1)
    ensures forall e :: 0 <= e < |file| - 1 ==> w[2 * e] == file[e + 1].src && w[2 * e + 1] == file[e + 1].dst
  {
    seq(2 * (|file| - 1), i requires 0 <= i < 2 * (|file| - 1) =>
      if i % 2 == 0 then file[i / 2 + 1].src else file[i / 2 + 1].dst)
  }

  // The edge number of a file covers whole tokens, of which the last holds
  // nothing but dummies.
  lemma FileFitsTokens(file: seq<Edge>, n: nat)
    requires IsEdgeFile(file, n)
    ensures var edgeEnd := 2 * (|file| - 1);
            var tokens := E.WordCount(edgeEnd) / 2;
            E.WordCount(edgeEnd) >= 2 && 16 * E.WordCount(edgeEnd) == edgeEnd && 16 * tokens == |file| - 1 && n <= 16 * (tokens - 1)
  {
    var c := (|file| - 1) / 16;
    assert |file| - 1 == 16 * c;
    assert (32 * c + 15) / 16 == 2 * c;
  }

  // What the kernel gathers from a file is what the n edges of the list say:
  // for every vertex the gather, in file order, over its edges.
  lemma FileIsGathered<V>(file: seq<Edge>, n: nat, props: seq<seq<V>>, stage0: V -> V, v: nat, size: nat,
                          active: V -> bool, gather: (V, V) -> V, zero: V)
    requires IsEdgeFile(file, n) && size > 0
    requires |props| >= (|file| - 1) / 16 && forall t :: 0 <= t < |props| ==> |props[t]| == 16
    ensures var tokens := (|file| - 1) / 16;
            && 32 * tokens <= |Words(file)| && n <= 16 * (tokens - 1)
            && var us := FileUpdates(file, props, stage0);
               |us| == 16 * tokens
               && G.Gathered(us, 16 * (tokens - 1), v, size, active, gather, zero) == G.Gathered(us, n, v, size, active, gather, zero)
  {
    FileFitsTokens(file, n);
    var us := FileUpdates(file, props, stage0);
    forall k | n <= k < |us| ensures us[k].dst < 0 {
      assert us[k].dst == Words(file)[2 * k + 1] == file[k + 1].dst;
    }
    G.PaddingIsNeverMissed(us, n, 16 * ((|file| - 1) / 16 - 1), v, size, active, gather, zero);
  }

  // The updates a file and the properties of its sources describe.
  function FileUpdates<V>(file: seq<Edge>, props: seq<seq<V>>, stage0: V -> V): (us: seq<D.Update<V>>)
    requires |file| > 0 && (|file| - 1) % 16 == 0
    requires |props| >= (|file| - 1) / 16 && forall t :: 0 <= t < |props| ==> |props[t]| == 16
    ensures |us| == |file| - 1
    ensures forall e :: 0 <= e < |us| ==> us[e].dst == file[e + 1].dst && us[e].value == stage0(props[e / 16][e % 16])
  {
    G.EdgeUpdates(Words(file), props, stage0, (|file| - 1) / 16)
  }
}
