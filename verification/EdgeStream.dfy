/**
 * The head of the gather kernel: reading the edge list in bursts
 * (`burstRead`), pairing destinations with source properties one step behind
 * (`srcPropertyProcess`), and the property stage (`propProcessSelf`).
 */
module EdgeStream {
  // A 512-bit token: sixteen vertex numbers and the end flag.
  datatype Burst = Burst(data: seq<int>, last: bool)

  // Eight edges on their way to the shuffle.
  datatype Tuples<V> = Tuples(dst: seq<int>, value: seq<V>, last: bool)

  // 512-bit words of the edge memory covered by edgeEnd integers.
  function WordCount(edgeEnd: nat): (n: nat)
    ensures edgeEnd <= 16 * n < edgeEnd + 16
  {
    (edgeEnd + 15) / 16
  }

  // Token data holding the given side of edges 16t up to 16t + n. Edge k of the
  // list sits in integers 2k (side 0, the source) and 2k + 1 (the destination).
  ghost predicate Holds(data: seq<int>, n: nat, input: seq<int>, side: nat, t: nat)
    requires side < 2 && n <= 16 && 32 * t + 2 * n <= |input|
  {
    |data| == 16 && forall i :: 0 <= i < n ==> data[i] == input[2 * (16 * t + i) + side]
  }

  // The stream carries one side of every edge, sixteen a token.
  ghost predicate Carries(b: seq<Burst>, input: seq<int>, side: nat, tokens: nat)
    requires side < 2 && 32 * tokens <= |input|
  {
    |b| >= tokens && forall t :: 0 <= t < tokens ==> !b[t].last && Holds(b[t].data, 16, input, side, t)
  }

  // Memory word j fills half a token: the even words the lower half.
  method Deinterleave(input: seq<int>, j: nat, src: seq<int>, dst: seq<int>) returns (src': seq<int>, dst': seq<int>)
    requires 16 * j + 16 <= |input|
    requires Holds(src, 8 * (j % 2), input, 0, j / 2) && Holds(dst, 8 * (j % 2), input, 1, j / 2)
    ensures Holds(src', 8 * (j % 2) + 8, input, 0, j / 2) && Holds(dst', 8 * (j % 2) + 8, input, 1, j / 2)
  {
    var half := 8 * (j % 2);
    src', dst' := src, dst;
    var i := 0;
    while i < 8
      invariant 0 <= i <= 8
      invariant Holds(src', half + i, input, 0, j / 2) && Holds(dst', half + i, input, 1, j / 2)
    {
      src' := src'[half + i := input[16 * j + 2 * i]];
      dst' := dst'[half + i := input[16 * j + 2 * i + 1]];
      i := i + 1;
    }
  }

  method BurstRead(edgeEnd: nat, input: seq<int>) returns (srcstream: seq<Burst>, dststream: seq<Burst>)
    requires |input| >= 16 * WordCount(edgeEnd)
    ensures |srcstream| == |dststream| == WordCount(edgeEnd) / 2 + 1
    ensures Carries(srcstream, input, 0, WordCount(edgeEnd) / 2) && srcstream[WordCount(edgeEnd) / 2].last
    ensures Carries(dststream, input, 1, WordCount(edgeEnd) / 2) && dststream[WordCount(edgeEnd) / 2].last
  {
    var end := WordCount(edgeEnd);
    var src, dst := seq(16, _ => 0), seq(16, _ => 0);
    srcstream, dststream := [], [];
    var j := 0;
    while j < end
      invariant 0 <= j <= end
      invariant |srcstream| == |dststream| == j / 2
      invariant |src| == |dst| == 16
      invariant j < end ==> Holds(src, 8 * (j % 2), input, 0, j / 2) && Holds(dst, 8 * (j % 2), input, 1, j / 2)
      invariant Carries(srcstream, input, 0, j / 2) && Carries(dststream, input, 1, j / 2)
    {
      src, dst := Deinterleave(input, j, src, dst);
      if j % 2 == 1 {
        srcstream := srcstream + [Burst(src, false)];
        dststream := dststream + [Burst(dst, false)];
      }
      j := j + 1;
    }
    srcstream := srcstream + [Burst(src, true)];
    dststream := dststream + [Burst(dst, true)];
  }

  // Tuples 2t and 2t + 1 pair token t with package t; only those made from the
  // last token before the end marker are flagged.
  ghost predicate Paired<V>(tuples: seq<Tuples<V>>, dest: seq<Burst>, props: seq<seq<V>>, tokens: nat, n: nat)
    requires n <= 2 * tokens && |dest| >= tokens && |props| >= tokens
  {
    && |tuples| == n
    && forall m :: 0 <= m < n ==> PairedAt(tuples[m], dest[m / 2].data, props[m / 2], m % 2, m / 2 == tokens - 1)
  }

  ghost predicate PairedAt<V>(t: Tuples<V>, dest: seq<int>, prop: seq<V>, half: nat, last: bool) {
    && |t.dst| == |t.value| == 8 && |dest| == |prop| == 16 && half < 2
    && (forall i :: 0 <= i < 8 ==> t.dst[i] == dest[8 * half + i])
    && (forall i :: 0 <= i < 8 ==> t.value[i] == prop[8 * half + i])
    && t.last == last
  }

  // With at least one token before the end marker; an empty edge file would
  // leave the kernel waiting for a second token for ever.
  method SrcPropertyProcess<V>(dest: seq<Burst>, props: seq<seq<V>>, ghost tokens: nat) returns (tuples: seq<Tuples<V>>)
    requires 1 <= tokens && |dest| == tokens + 1 && dest[tokens].last
    requires forall t :: 0 <= t < tokens ==> !dest[t].last && |dest[t].data| == 16
    requires |props| >= tokens && forall t :: 0 <= t < tokens ==> |props[t]| == 16
    ensures Paired(tuples, dest, props, tokens, 2 * tokens)
  {
    tuples := [];
    var lastDest := dest[0];
    var k := 0;
    while true
      invariant 0 <= k < tokens
      invariant lastDest == dest[k]
      invariant Paired(tuples, dest, props, tokens, 2 * k)
      decreases tokens - k
    {
      var vertices := dest[k + 1];
      var prop := props[k];
      var j := 0;
      while j < 2
        invariant 0 <= j <= 2
        invariant Paired(tuples, dest, props, tokens, 2 * k + j)
      {
        tuples := tuples + [Tuples(lastDest.data[8 * j..8 * j + 8], prop[8 * j..8 * j + 8], vertices.last)];
        j := j + 1;
      }
      lastDest := vertices;
      k := k + 1;
      if vertices.last { break; }
    }
  }

  // The property stage maps every value and stops after the first flagged
  // tuple, so the second flagged one never gets any further.
  method PropProcessSelf<V>(input: seq<Tuples<V>>, stage0: V -> V, ghost n: nat) returns (output: seq<Tuples<V>>)
    requires n < |input| && input[n].last && forall m :: 0 <= m < n ==> !input[m].last
    requires forall m :: 0 <= m < |input| ==> |input[m].dst| == |input[m].value| == 8
    ensures |output| == n + 1
    ensures forall m :: 0 <= m <= n ==> output[m].dst == input[m].dst && output[m].last == input[m].last && |output[m].value| == 8
    ensures forall m, i :: 0 <= m <= n && 0 <= i < 8 ==> output[m].value[i] == stage0(input[m].value[i])
  {
    output := [];
    var m := 0;
    while true
      invariant 0 <= m <= n
      invariant |output| == m
      invariant forall l :: 0 <= l < m ==> output[l].dst == input[l].dst && output[l].last == input[l].last && |output[l].value| == 8
      invariant forall l, i :: 0 <= l < m && 0 <= i < 8 ==> output[l].value[i] == stage0(input[l].value[i])
      decreases n - m
    {
      var t := input[m];
      output := output + [Tuples(t.dst, seq(8, i requires 0 <= i < 8 => stage0(t.value[i])), t.last)];
      if t.last { break; }
      m := m + 1;
    }
  }
}
