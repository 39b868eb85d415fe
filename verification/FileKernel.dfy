/**
 * From an edge file to the gathered words: the kernel run on a saved list, and
 * the whole way of the source ids through coalescer, read engine and cache
 * elements that brings their properties back.
 */
module FileKernel {
  import opened CachePe
  import opened SourceCache
  import opened SourceCacheResults
  import opened ReadEngine
  import opened SourcePipeline
  import opened Partition
  import opened EdgeFile
  import C = Coalesce
  import N = CoalesceChain
  import E = EdgeStream
  import D = DstProperty
  import G = GatherKernel
  import S = Shuffle

  // ---------------------------------------------------------------------
  // What a list of edges says about a vertex.
  // ---------------------------------------------------------------------

  // The in-order gather over the edges to vertex v whose source is active.
  function EdgeGather<V>(edges: seq<Edge>, lookup: int -> V, stage0: V -> V, v: nat, size: nat, active: V -> bool,
                         gather: (V, V) -> V, zero: V): V
    requires size > 0
  {
    if edges == [] then zero
    else
      var e := edges[|edges| - 1];
      var r := EdgeGather(edges[..|edges| - 1], lookup, stage0, v, size, active, gather, zero);
      var value := stage0(lookup(e.src));
      if e.dst >= 0 && e.dst % size == v && active(value) then gather(r, value) else r
  }

  // Every package holds what lookup says of the sources in it.
  ghost predicate Looked<V>(file: seq<Edge>, props: seq<seq<V>>, lookup: int -> V) {
    && |props| == (|file| - 1) / 16
    && (forall t :: 0 <= t < |props| ==> |props[t]| == 16)
    && forall t, j :: 0 <= t < |props| && 0 <= j < 16 ==> props[t][j] == lookup(file[16 * t + j + 1].src)
  }

  lemma EdgeGatherSnoc<V>(edges: seq<Edge>, e: Edge, lookup: int -> V, stage0: V -> V, v: nat, size: nat, active: V -> bool,
                          gather: (V, V) -> V, zero: V)
    requires size > 0
    ensures var r, value := EdgeGather(edges, lookup, stage0, v, size, active, gather, zero), stage0(lookup(e.src));
            var next := if e.dst >= 0 && e.dst % size == v && active(value) then gather(r, value) else r;
            EdgeGather(edges + [e], lookup, stage0, v, size, active, gather, zero) == next
  {
    assert (edges + [e])[..|edges|] == edges;
  }

  lemma UpdateIsEdge<V>(file: seq<Edge>, m: nat, props: seq<seq<V>>, lookup: int -> V, stage0: V -> V)
    requires |file| > 0 && (|file| - 1) % 16 == 0 && Looked(file, props, lookup) && m < |file| - 1
    ensures FileUpdates(file, props, stage0)[m] == D.Update(file[m + 1].dst, stage0(lookup(file[m + 1].src)))
  {
    assert m == 16 * (m / 16) + m % 16;
  }

  lemma {:induction false} UpdatesAreEdges<V>(file: seq<Edge>, m: nat, props: seq<seq<V>>, lookup: int -> V, stage0: V -> V,
                                              v: nat, size: nat, active: V -> bool, gather: (V, V) -> V, zero: V)
    requires |file| > 0 && (|file| - 1) % 16 == 0 && Looked(file, props, lookup) && size > 0 && m <= |file| - 1
    ensures G.Gathered(FileUpdates(file, props, stage0), m, v, size, active, gather, zero)
         == EdgeGather(file[1..m + 1], lookup, stage0, v, size, active, gather, zero)
  {
    if m > 0 {
      UpdatesAreEdges(file, m - 1, props, lookup, stage0, v, size, active, gather, zero);
      OneMoreUpdate(file, m - 1, props, lookup, stage0, v, size, active, gather, zero);
    }
  }

  lemma OneMoreUpdate<V>(file: seq<Edge>, m: nat, props: seq<seq<V>>, lookup: int -> V, stage0: V -> V,
                         v: nat, size: nat, active: V -> bool, gather: (V, V) -> V, zero: V)
    requires |file| > 0 && (|file| - 1) % 16 == 0 && Looked(file, props, lookup) && size > 0 && m < |file| - 1
    requires G.Gathered(FileUpdates(file, props, stage0), m, v, size, active, gather, zero)
          == EdgeGather(file[1..m + 1], lookup, stage0, v, size, active, gather, zero)
    ensures G.Gathered(FileUpdates(file, props, stage0), m + 1, v, size, active, gather, zero)
         == EdgeGather(file[1..m + 2], lookup, stage0, v, size, active, gather, zero)
  {
    hide EdgeGather, FileUpdates;
    UpdateIsEdge(file, m, props, lookup, stage0);
    assert file[1..m + 2] == file[1..m + 1] + [file[m + 1]];
    EdgeGatherSnoc(file[1..m + 1], file[m + 1], lookup, stage0, v, size, active, gather, zero);
  }

  // Output word v of the kernel is the gather for vertex v over the edges.
  ghost predicate GathersEdges<V>(out: seq<seq<V>>, edges: seq<Edge>, lookup: int -> V, stage0: V -> V, words: nat,
                                  active: V -> bool, gather: (V, V) -> V, zero: V)
    requires words > 0
  {
    && |out| == 2 * words && (forall b :: 0 <= b < 2 * words ==> |out[b]| == S.PE_NUM)
    && forall b, p :: 0 <= b < 2 * words && 0 <= p < S.PE_NUM ==>
         out[b][p] == EdgeGather(edges, lookup, stage0, 16 * b + p, 32 * words, active, gather, zero)
  }

  ghost predicate UnitsIdle<V>(units: seq<D.DstUnit<V>>, words: nat, gather: (V, V) -> V, zero: V)
    reads units, G.Buffers(units)
  {
    G.Units(units, words, gather, zero) && forall p :: 0 <= p < S.PE_NUM ==> units[p].Idle()
  }

  // What the kernel holds for the edges it has counted is the gather over the
  // records of the file.
  lemma CountedIsEdgeGather<V>(file: seq<Edge>, n: nat, props: seq<seq<V>>, lookup: int -> V, stage0: V -> V,
                               v: nat, size: nat, active: V -> bool, gather: (V, V) -> V, zero: V)
    requires IsEdgeFile(file, n) && Looked(file, props, lookup) && size > 0
    ensures G.Gathered(FileUpdates(file, props, stage0), 16 * ((|file| - 1) / 16 - 1), v, size, active, gather, zero)
         == EdgeGather(Records(file, n), lookup, stage0, v, size, active, gather, zero)
  {
    FileIsGathered(file, n, props, stage0, v, size, active, gather, zero);
    UpdatesAreEdges(file, n, props, lookup, stage0, v, size, active, gather, zero);
  }

  lemma CountedAreRecords<V>(out: seq<seq<V>>, file: seq<Edge>, n: nat, props: seq<seq<V>>, lookup: int -> V, stage0: V -> V,
                             words: nat, active: V -> bool, gather: (V, V) -> V, zero: V)
    requires IsEdgeFile(file, n) && Looked(file, props, lookup) && words > 0
    requires G.Holds16(out, FileUpdates(file, props, stage0), 16 * ((|file| - 1) / 16 - 1), words, active, gather, zero)
    ensures GathersEdges(out, Records(file, n), lookup, stage0, words, active, gather, zero)
  {
    hide G.Gathered, EdgeGather, Records;
    forall b, p | 0 <= b < 2 * words && 0 <= p < S.PE_NUM
      ensures out[b][p] == EdgeGather(Records(file, n), lookup, stage0, 16 * b + p, 32 * words, active, gather, zero)
    {
      CountedIsEdgeGather(file, n, props, lookup, stage0, 16 * b + p, 32 * words, active, gather, zero);
    }
  }

  lemma TokensFit<V>(file: seq<Edge>, n: nat, props: seq<seq<V>>, lookup: int -> V)
    requires IsEdgeFile(file, n) && Looked(file, props, lookup)
    ensures |file| > 0 && file[0].src == |file| - 1 && (|file| - 1) % 16 == 0
    ensures var count := E.WordCount(2 * (|file| - 1));
            && count >= 2 && 16 * count == 2 * (|file| - 1) && count / 2 == (|file| - 1) / 16
            && |props| == count / 2 && forall t :: 0 <= t < |props| ==> |props[t]| == 16
  {
    FileFitsTokens(file, n);
  }

  // The kernel on a file, given the properties of its sources: the header is
  // what makes the host hand over all of it, and the padding what the end of the
  // stream takes away.
  method GatherFile<V>(file: seq<Edge>, ghost n: nat, props: seq<seq<V>>, ghost lookup: int -> V, stage0: V -> V, active: V -> bool,
                       units: seq<D.DstUnit<V>>, words: nat, ghost gather: (V, V) -> V, ghost zero: V)
    returns (out: seq<seq<V>>)
    requires IsEdgeFile(file, n) && Looked(file, props, lookup)
    requires words > 0 && words % 32 == 0 && UnitsIdle(units, words, gather, zero)
    modifies units, G.Buffers(units)
    ensures UnitsIdle(units, words, gather, zero)
    ensures GathersEdges(out, Records(file, n), lookup, stage0, words, active, gather, zero)
  {
    hide IsEdgeFile, Looked, GathersEdges, G.Holds16, G.EdgeUpdates, E.Carries;
    TokensFit(file, n, props, lookup);
    var edgeEnd := 2 * file[0].src;
    var srcOut;
    srcOut, out := G.Gs(edgeEnd, EdgeFile.Words(file), props, stage0, active, units, words, gather, zero);
    CountedAreRecords(out, file, n, props, lookup, stage0, words, active, gather, zero);
  }

  // Packages with what lookup says of each source.
  method LookUp<V>(file: seq<Edge>, ghost n: nat, lookup: int -> V) returns (props: seq<seq<V>>)
    requires IsEdgeFile(file, n)
    ensures Looked(file, props, lookup)
  {
    var tokens := (|file| - 1) / 16;
    props := seq(tokens, t requires 0 <= t < tokens && |file| == 16 * tokens + 1 =>
      seq(16, j requires 0 <= j < 16 && 16 * t + j + 1 < |file| => lookup(file[16 * t + j + 1].src)));
  }

  // A list of blocks, saved and gathered: no edge is lost, no dummy counts.
  method SaveAndGather<V>(list: seq<Block>, lookup: int -> V, stage0: V -> V, active: V -> bool,
                          units: seq<D.DstUnit<V>>, words: nat, ghost gather: (V, V) -> V, ghost zero: V)
    returns (file: seq<Edge>, ghost n: nat, out: seq<seq<V>>)
    requires words > 0 && words % 32 == 0 && UnitsIdle(units, words, gather, zero)
    modifies units, G.Buffers(units)
    ensures IsEdgeFile(file, n) && multiset(Records(file, n)) == Edges(list)
    ensures GathersEdges(out, Records(file, n), lookup, stage0, words, active, gather, zero)
    ensures UnitsIdle(units, words, gather, zero)
  {
    file, n := SaveFile(list);
    var props := LookUp(file, n, lookup);
    out := GatherFile(file, n, props, lookup, stage0, active, units, words, gather, zero);
  }
}
