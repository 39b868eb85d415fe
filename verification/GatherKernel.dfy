/**
 * The gather kernel as a whole (`gs`): from the edge list and the source
 * properties to the accumulated words of a partition, in vertex order. The
 * stages are joined by blocking FIFO streams, so running them one after the
 * other gives what running them side by side gives.
 */
module GatherKernel {
  import opened DstProperty
  import opened EdgeStream
  import opened Shuffle

  // The in-order gather over those of the first n updates that are real (the
  // destination is not negative), active, and meant for vertex v of the
  // partition.
  function Gathered<V>(us: seq<Update<V>>, n: nat, v: nat, size: nat, active: V -> bool,
                       gather: (V, V) -> V, zero: V): V
    requires n <= |us| && size > 0
  {
    if n == 0 then zero
    else
      var r := Gathered(us, n - 1, v, size, active, gather, zero);
      if Hits(us[n - 1], v, size, active) then gather(r, us[n - 1].value) else r
  }

  predicate Hits<V>(u: Update<V>, v: nat, size: nat, active: V -> bool)
    requires size > 0
  {
    u.dst >= 0 && u.dst % size == v && active(u.value)
  }

  lemma RemainderIs(x: int, m: int, k: int, r: int)
    requires m > 0 && 0 <= r < m && x == m * k + r
    ensures x % m == r
  {
    var d := x / m - k;
    assert m * d == r - x % m by {
      assert m * (x / m) + x % m == x;
      assert m * d == m * (x / m) - m * k;
    }
    assert d >= 1 ==> m * d >= m;
    assert d <= -1 ==> m * d <= -m;
  }

  // Lane and index within a lane together are the vertex number.
  lemma VertexNumber(dst: nat, words: nat)
    requires words > 0
    ensures dst % (32 * words) == 16 * Index(dst, words) + dst % 16
  {
    var q, m := dst / 16, 2 * words;
    assert q == m * (q / m) + q % m;
    assert 16 * (m * (q / m)) == (32 * words) * (q / m);
    RemainderIs(dst, 32 * words, q / m, 16 * (q % m) + dst % 16);
  }

  lemma {:induction false} GatheredPrefix<V>(us: seq<Update<V>>, more: seq<Update<V>>, n: nat, idx: nat, words: nat,
                                             gather: (V, V) -> V, zero: V)
    requires n <= |us| && words > 0
    ensures GatheredAt(us + more, n, idx, words, gather, zero) == GatheredAt(us, n, idx, words, gather, zero)
  {
    if n > 0 { GatheredPrefix(us, more, n - 1, idx, words, gather, zero); }
  }

  // What unit i accumulates at an index is the gather for that vertex.
  lemma {:induction false} UnitGathers<V>(us: seq<Update<V>>, n: nat, i: nat, idx: nat, words: nat, active: V -> bool,
                                          gather: (V, V) -> V, zero: V)
    requires n <= |us| && i < PE_NUM && words > 0 && idx < 2 * words
    ensures var kept := Kept(us, n, i, active);
            GatheredAt(kept, |kept|, idx, words, gather, zero) == Gathered(us, n, 16 * idx + i, 32 * words, active, gather, zero)
  {
    if n > 0 {
      UnitGathers(us, n - 1, i, idx, words, active, gather, zero);
      var kept, u := Kept(us, n - 1, i, active), us[n - 1];
      if u.dst >= 0 { VertexNumber(u.dst, words); }
      if Keeps(u, i, active) {
        GatheredPrefix(kept, [u], |kept|, idx, words, gather, zero);
      } else {
        assert kept + [] == kept;
      }
    }
  }

  // ---------------------------------------------------------------------
  // The output stage.
  // ---------------------------------------------------------------------

  // A burst holds the given index of every unit, which is sixteen vertices.
  ghost predicate BurstOf<V>(burst: seq<V>, writeArray: seq<seq<Word<V>>>, idx: nat) {
    && |burst| == |writeArray| == PE_NUM
    && forall p :: 0 <= p < PE_NUM ==> idx < 2 * |writeArray[p]| && burst[p] == Vertex(writeArray[p], idx)
  }

  // One read of all sixteen streams fills two bursts of the write buffer.
  method TwoBursts<V>(writeArray: seq<seq<Word<V>>>, w: nat) returns (low: seq<V>, high: seq<V>)
    requires |writeArray| == PE_NUM && forall p :: 0 <= p < PE_NUM ==> w < |writeArray[p]|
    ensures BurstOf(low, writeArray, 2 * w) && BurstOf(high, writeArray, 2 * w + 1)
  {
    low, high := [], [];
    var p := 0;
    while p < PE_NUM
      invariant 0 <= p <= PE_NUM && |low| == |high| == p
      invariant forall q :: 0 <= q < p ==> low[q] == writeArray[q][w].lsb && high[q] == writeArray[q][w].msb
    {
      low, high := low + [writeArray[p][w].lsb], high + [writeArray[p][w].msb];
      p := p + 1;
    }
  }

  // Blocks of 64 bursts, each built from 32 reads.
  method ProcessEdgeWrite<V>(writeArray: seq<seq<Word<V>>>, words: nat) returns (out: seq<seq<V>>)
    requires |writeArray| == PE_NUM && forall p :: 0 <= p < PE_NUM ==> |writeArray[p]| == words
    requires words % 32 == 0
    ensures |out| == 2 * words
    ensures forall b :: 0 <= b < |out| ==> BurstOf(out[b], writeArray, b)
  {
    out := [];
    var i := 0;
    while i < words / 32
      invariant 0 <= i <= words / 32 && |out| == 64 * i
      invariant forall b :: 0 <= b < |out| ==> BurstOf(out[b], writeArray, b)
    {
      var writeBuffer: seq<seq<V>> := [];
      var sr := 0;
      while sr < 32
        invariant 0 <= sr <= 32 && |writeBuffer| == 2 * sr
        invariant forall b :: 0 <= b < |writeBuffer| ==> BurstOf(writeBuffer[b], writeArray, 64 * i + b)
      {
        var low, high := TwoBursts(writeArray, 32 * i + sr);
        writeBuffer := writeBuffer + [low, high];
        sr := sr + 1;
      }
      out := out + writeBuffer;
      i := i + 1;
    }
  }

  // ---------------------------------------------------------------------
  // The whole kernel.
  // ---------------------------------------------------------------------

  // Sixteen separate units between runs, all for the same vertices.
  ghost predicate Units<V>(units: seq<DstUnit<V>>, words: nat, gather: (V, V) -> V, zero: V)
    reads units
  {
    && |units| == PE_NUM
    && (forall p :: 0 <= p < PE_NUM ==> units[p].words == words && units[p].gather == gather && units[p].zero == zero)
    && (forall p, q :: 0 <= p < q < PE_NUM ==>
          units[p] != units[q] && units[p].tmpVPropBuffer != units[q].tmpVPropBuffer
          && units[p].tmpVPropBuffer != units[q].lastValue && units[p].lastValue != units[q].tmpVPropBuffer
          && units[p].lastValue != units[q].lastValue && units[p].lastIndex != units[q].lastIndex)
  }

  // The updates the edge list and the source properties describe.
  function EdgeUpdates<V>(input: seq<int>, props: seq<seq<V>>, stage0: V -> V, tokens: nat): (us: seq<Update<V>>)
    requires 32 * tokens <= |input| && tokens <= |props| && forall t :: 0 <= t < |props| ==> |props[t]| == 16
    ensures |us| == 16 * tokens
    ensures forall e :: 0 <= e < |us| ==> us[e] == Update(input[2 * e + 1], stage0(props[e / 16][e % 16]))
  {
    seq(16 * tokens, e requires 0 <= e < 16 * tokens => Update(input[2 * e + 1], stage0(props[e / 16][e % 16])))
  }

  lemma PairsAreEdges<V>(dst: seq<Burst>, input: seq<int>, props: seq<seq<V>>, stage0: V -> V, tokens: nat,
                         paired: seq<Tuples<V>>, tuples: seq<Tuples<V>>, n: nat)
    requires 1 <= tokens && 32 * tokens <= |input| && tokens <= |props| && forall t :: 0 <= t < |props| ==> |props[t]| == 16
    requires Carries(dst, input, 1, tokens) && Paired(paired, dst, props, tokens, 2 * tokens)
    requires n <= 2 * tokens && n <= |tuples|
    requires forall m :: 0 <= m < |tuples| ==> |tuples[m].dst| == |tuples[m].value| == 8
    requires forall m :: 0 <= m < n ==> tuples[m].dst == paired[m].dst
    requires forall m, i :: 0 <= m < n && 0 <= i < 8 ==> tuples[m].value[i] == stage0(paired[m].value[i])
    ensures Flattened(tuples, EdgeUpdates(input, props, stage0, tokens), n)
  {
    var us := EdgeUpdates(input, props, stage0, tokens);
    forall m, j | 0 <= m < n && 0 <= j < 8 ensures us[8 * m + j] == Update(tuples[m].dst[j], tuples[m].value[j]) {
      var t, i := m / 2, 8 * (m % 2) + j;
      assert PairedAt(paired[m], dst[t].data, props[t], m % 2, t == tokens - 1);
      assert Holds(dst[t].data, 16, input, 1, t);
      assert 8 * m + j == 16 * t + i;
    }
  }

  // The stages in front of the shuffle.
  method Front<V>(edgeEnd: nat, input: seq<int>, props: seq<seq<V>>, stage0: V -> V)
    returns (srcOut: seq<Burst>, tuples: seq<Tuples<V>>)
    requires |input| >= 16 * WordCount(edgeEnd)
    requires WordCount(edgeEnd) >= 2
    requires |props| >= WordCount(edgeEnd) / 2 && forall t :: 0 <= t < |props| ==> |props[t]| == 16
    ensures |srcOut| == WordCount(edgeEnd) / 2 + 1 && Carries(srcOut, input, 0, WordCount(edgeEnd) / 2)
    ensures |tuples| == 2 * (WordCount(edgeEnd) / 2 - 1) + 1 && FirstFlagged(tuples, 2 * (WordCount(edgeEnd) / 2 - 1))
    ensures Flattened(tuples, EdgeUpdates(input, props, stage0, WordCount(edgeEnd) / 2), 2 * (WordCount(edgeEnd) / 2 - 1))
  {
    ghost var tokens := WordCount(edgeEnd) / 2;
    ghost var n := 2 * (tokens - 1);
    var dst: seq<Burst>;
    srcOut, dst := BurstRead(edgeEnd, input);
    assert forall t :: 0 <= t < tokens ==> Holds(dst[t].data, 16, input, 1, t);
    var paired := SrcPropertyProcess(dst, props, tokens);
    assert forall m :: 0 <= m < 2 * tokens ==> PairedAt(paired[m], dst[m / 2].data, props[m / 2], m % 2, m / 2 == tokens - 1);
    tuples := PropProcessSelf(paired, stage0, n);
    PairsAreEdges(dst, input, props, stage0, tokens, paired, tuples, n);
  }

  ghost function Buffers<V>(units: seq<DstUnit<V>>): set<object>
    reads units
  {
    (set u | u in units :: u.tmpVPropBuffer) + (set u | u in units :: u.lastValue) + (set u | u in units :: u.lastIndex)
  }

  // Output word v holds the gather for vertex v over the first n updates.
  ghost predicate Holds16<V>(out: seq<seq<V>>, us: seq<Update<V>>, n: nat, words: nat, active: V -> bool,
                             gather: (V, V) -> V, zero: V)
    requires n <= |us| && words > 0
  {
    && |out| == 2 * words && (forall b :: 0 <= b < 2 * words ==> |out[b]| == PE_NUM)
    && forall b, p :: 0 <= b < 2 * words && 0 <= p < PE_NUM ==>
         out[b][p] == Gathered(us, n, 16 * b + p, 32 * words, active, gather, zero)
  }

  // What one unit sends out, given the tuples of the run.
  ghost predicate UnitHolds<V>(sent: seq<Word<V>>, us: seq<Update<V>>, n: nat, p: nat, words: nat, active: V -> bool,
                               gather: (V, V) -> V, zero: V)
    requires n <= |us| && words > 0
  {
    && |sent| == words
    && forall idx :: 0 <= idx < 2 * words ==>
         Vertex(sent, idx) == Gathered(us, n, 16 * idx + p, 32 * words, active, gather, zero)
  }

  lemma AllHold<V>(out: seq<seq<V>>, writeArray: seq<seq<Word<V>>>, us: seq<Update<V>>, n: nat, words: nat, active: V -> bool,
                   gather: (V, V) -> V, zero: V)
    requires n <= |us| && words > 0 && |writeArray| == PE_NUM && |out| == 2 * words
    requires forall b :: 0 <= b < |out| ==> BurstOf(out[b], writeArray, b)
    requires forall q :: 0 <= q < PE_NUM ==> UnitHolds(writeArray[q], us, n, q, words, active, gather, zero)
    ensures Holds16(out, us, n, words, active, gather, zero)
  {
    forall b | 0 <= b < 2 * words ensures |out[b]| == PE_NUM {
      assert BurstOf(out[b], writeArray, b);
    }
    forall b, q | 0 <= b < 2 * words && 0 <= q < PE_NUM
      ensures out[b][q] == Gathered(us, n, 16 * b + q, 32 * words, active, gather, zero)
    {
      assert BurstOf(out[b], writeArray, b);
      assert UnitHolds(writeArray[q], us, n, q, words, active, gather, zero);
    }
  }

  lemma PlainTokens<V>(tokens: seq<Token<V>>, us: seq<Update<V>>)
    requires tokens != [] && tokens[|tokens| - 1].last && Plain(tokens[..|tokens| - 1], us)
    ensures Length(tokens) == |us| < |tokens| && Payload(tokens, |us|) == us
  {
    assert forall k :: 0 <= k < |us| ==> tokens[k] == tokens[..|us|][k];
  }

  // Shuffle output, filter and accumulation of one of the sixteen lanes.
  method Lane<V>(unit: DstUnit<V>, p: nat, tuples: seq<Tuples<V>>, active: V -> bool,
                 ghost us: seq<Update<V>>, ghost n: nat)
    returns (next: seq<Tuples<V>>, sent: seq<Word<V>>)
    requires unit.Idle() && p < PE_NUM
    requires FirstFlagged(tuples, n) && Flattened(tuples, us, n)
    modifies unit`pending, unit`contents, unit.tmpVPropBuffer, unit.lastValue, unit.lastIndex
    ensures unit.Idle()
    ensures next == tuples[..n + 1]
    ensures UnitHolds(sent, us, 8 * n, p, unit.words, active, unit.gather, unit.zero)
  {
    var filters: seq<Filter<V>>;
    next, filters := ShuffleEntry(p, tuples, active, n);
    var tokens := TupleFilter(filters);
    ghost var kept := Emitted(filters[..|filters| - 1]);
    ChosenIsKept(tuples, us, n, p, active);
    PlainTokens(tokens, kept);
    sent := unit.Process(tokens);
    forall idx | 0 <= idx < 2 * unit.words
      ensures Vertex(sent, idx) == Gathered(us, 8 * n, 16 * idx + p, 32 * unit.words, active, unit.gather, unit.zero)
    {
      UnitGathers(us, 8 * n, p, idx, unit.words, active, unit.gather, unit.zero);
    }
  }

  // A lane of one of several units; the others stay as they are.
  method OneLane<V>(units: seq<DstUnit<V>>, p: nat, tuples: seq<Tuples<V>>, active: V -> bool, ghost us: seq<Update<V>>, ghost n: nat,
                    ghost words: nat, ghost gather: (V, V) -> V, ghost zero: V)
    returns (next: seq<Tuples<V>>, sent: seq<Word<V>>)
    requires p < PE_NUM && words > 0 && |tuples| == n + 1 && FirstFlagged(tuples, n) && Flattened(tuples, us, n)
    requires Units(units, words, gather, zero) && forall q :: 0 <= q < PE_NUM ==> units[q].Idle()
    modifies units, Buffers(units)
    ensures Units(units, words, gather, zero) && forall q :: 0 <= q < PE_NUM ==> units[q].Idle()
    ensures next == tuples && UnitHolds(sent, us, 8 * n, p, words, active, gather, zero)
  {
    assert units[p] in units;
    next, sent := Lane(units[p], p, tuples, active, us, n);
    assert tuples[..n + 1] == tuples;
  }

  // One run of the kernel. Every edge but the last sixteen of the list counts;
  // the units end as they began.
  method Gs<V>(edgeEnd: nat, input: seq<int>, props: seq<seq<V>>, stage0: V -> V, active: V -> bool,
               units: seq<DstUnit<V>>, words: nat, ghost gather: (V, V) -> V, ghost zero: V)
    returns (srcOut: seq<Burst>, out: seq<seq<V>>)
    requires WordCount(edgeEnd) >= 2 && |input| >= 16 * WordCount(edgeEnd)
    requires |props| >= WordCount(edgeEnd) / 2 && forall t :: 0 <= t < |props| ==> |props[t]| == 16
    requires words > 0 && words % 32 == 0
    requires Units(units, words, gather, zero) && forall p :: 0 <= p < PE_NUM ==> units[p].Idle()
    modifies units, Buffers(units)
    ensures Units(units, words, gather, zero) && forall p :: 0 <= p < PE_NUM ==> units[p].Idle()
    ensures var tokens := WordCount(edgeEnd) / 2;
            && |srcOut| == tokens + 1 && Carries(srcOut, input, 0, tokens)
            && Holds16(out, EdgeUpdates(input, props, stage0, tokens), 16 * (tokens - 1), words, active, gather, zero)
  {
    ghost var tokens := WordCount(edgeEnd) / 2;
    ghost var us := EdgeUpdates(input, props, stage0, tokens);
    ghost var n := 2 * (tokens - 1);
    var tuples: seq<Tuples<V>>;
    srcOut, tuples := Front(edgeEnd, input, props, stage0);
    hide Carries, Flattened, UnitHolds, Gathered, Holds16;
    var writeArray: seq<seq<Word<V>>> := [];
    var p := 0;
    while p < PE_NUM
      invariant 0 <= p <= PE_NUM && |writeArray| == p
      invariant Units(units, words, gather, zero) && forall q :: 0 <= q < PE_NUM ==> units[q].Idle()
      invariant |tuples| == n + 1 && FirstFlagged(tuples, n) && Flattened(tuples, us, n)
      invariant forall q :: 0 <= q < p ==> UnitHolds(writeArray[q], us, 8 * n, q, words, active, gather, zero)
    {
      var sent: seq<Word<V>>;
      tuples, sent := OneLane(units, p, tuples, active, us, n, words, gather, zero);
      writeArray := writeArray + [sent];
      p := p + 1;
    }
    out := ProcessEdgeWrite(writeArray, words);
    AllHold(out, writeArray, us, 8 * n, words, active, gather, zero);
  }

  // ---------------------------------------------------------------------
  // The sixteen edges the end of the stream takes with it.
  // ---------------------------------------------------------------------

  // With dummies (negative destinations) at the end, the sixteen edges of the
  // last token may be dropped: the words are those of the whole list.
  lemma {:induction false} PaddingIsNeverMissed<V>(us: seq<Update<V>>, n: nat, m: nat, v: nat, size: nat, active: V -> bool,
                                                   gather: (V, V) -> V, zero: V)
    requires n <= m <= |us| && size > 0
    requires forall k :: n <= k < m ==> us[k].dst < 0
    ensures Gathered(us, m, v, size, active, gather, zero) == Gathered(us, n, v, size, active, gather, zero)
  {
    if n < m { PaddingIsNeverMissed(us, n, m - 1, v, size, active, gather, zero); }
  }

  lemma {:induction false} SumsGrow(us: seq<Update<nat>>, n: nat, m: nat, v: nat, size: nat, active: nat -> bool,
                                    gather: (nat, nat) -> nat)
    requires n <= m <= |us| && size > 0
    requires forall a: nat, b: nat :: gather(a, b) == a + b
    requires forall k :: 0 <= k < |us| ==> us[k].value > 0
    ensures Gathered(us, m, v, size, active, gather, 0) >= Gathered(us, n, v, size, active, gather, 0)
    ensures Gathered(us, m, v, size, active, gather, 0) == Gathered(us, n, v, size, active, gather, 0)
            <==> forall k :: n <= k < m ==> !Hits(us[k], v, size, active)
  {
    if n < m { SumsGrow(us, n, m - 1, v, size, active, gather); }
  }

  // For a gather that adds positive values the condition is exact: no word
  // misses anything if and only if every dropped edge is a dummy or inactive.
  lemma DropIsHarmlessIff(us: seq<Update<nat>>, n: nat, m: nat, size: nat, active: nat -> bool, gather: (nat, nat) -> nat)
    requires n <= m <= |us| && size > 0
    requires forall a: nat, b: nat :: gather(a, b) == a + b
    requires forall k :: 0 <= k < |us| ==> us[k].value > 0
    ensures (forall v: nat :: v < size ==> Gathered(us, m, v, size, active, gather, 0) == Gathered(us, n, v, size, active, gather, 0))
            <==> (forall k :: n <= k < m ==> us[k].dst < 0 || !active(us[k].value))
  {
    forall v: nat | v < size
      ensures Gathered(us, m, v, size, active, gather, 0) == Gathered(us, n, v, size, active, gather, 0)
              <==> forall k :: n <= k < m ==> !Hits(us[k], v, size, active)
    {
      SumsGrow(us, n, m, v, size, active, gather);
    }
    if k :| n <= k < m && us[k].dst >= 0 && active(us[k].value) {
      var v: nat := us[k].dst % size;
      assert Hits(us[k], v, size, active);
      assert Gathered(us, m, v, size, active, gather, 0) != Gathered(us, n, v, size, active, gather, 0);
    } else {
      forall v: nat, k | v < size && n <= k < m ensures !Hits(us[k], v, size, active) {
        assert !(us[k].dst >= 0 && active(us[k].value));
      }
    }
  }
}
