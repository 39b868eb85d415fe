/**
 * The four two-pass scans that cut their input into sixteen chunks, one for each
 * lane (`PrefixSumAVX512Vertical1` to `4`), and the partitioned driver, over
 * exact real arithmetic: all of them compute the inclusive prefix sums. Input
 * and output may be the same array.
 */
module VerticalScan {
  import opened Lanes
  import opened TreeScan

  function InclusiveSums(a: seq<real>): (r: seq<real>)
    ensures |r| == |a| && forall j :: 0 <= j < |a| ==> r[j] == Prefix(a, j + 1)
  {
    seq(|a|, j requires 0 <= j < |a| => Prefix(a, j + 1))
  }

  // The sum of the elements from p up to q.
  function Between(a: seq<real>, p: nat, q: nat): real {
    if p <= q <= |a| then Prefix(a, q) - Prefix(a, p) else 0.0
  }

  // Element t of chunk l.
  function Place(c: nat, l: nat, t: nat): nat {
    Start(c, l) + t
  }

  lemma PlaceInside(c: nat, l: nat, t: nat)
    requires l < LANES && t < c
    ensures Place(c, l, t) < Start(c, LANES)
  {
    Later(c, l, LANES);
  }

  // Every element has its chunk.
  lemma {:induction false} Locate(c: nat, n: nat, j: nat) returns (l: nat, t: nat)
    requires j < Start(c, n)
    ensures l < n && t < c && Place(c, l, t) == j
  {
    if j < Start(c, n - 1) { l, t := Locate(c, n - 1, j); } else { l, t := n - 1, j - Start(c, n - 1); }
  }

  // The first i elements of every chunk hold f, the others g.
  ghost predicate Columns(w: seq<real>, c: nat, i: nat, f: (nat, nat) -> real, g: (nat, nat) -> real) {
    && |w| == Start(c, LANES)
    && forall l, t :: 0 <= l < LANES && 0 <= t < c ==>
         Place(c, l, t) < |w| && w[Place(c, l, t)] == if t < i then f(l, t) else g(l, t)
  }

  // One element more of every chunk, scattered.
  lemma NextColumn(w: seq<real>, c: nat, i: nat, f: (nat, nat) -> real, g: (nat, nat) -> real, idx: seq<nat>, v: seq<real>)
    requires Columns(w, c, i, f, g) && i < c && Row(idx, c, 0, i) && |v| == LANES
    requires forall l :: 0 <= l < LANES ==> v[l] == f(l, i)
    ensures Inside(idx, |w|) && Columns(Scattered(w, idx, v, LANES), c, i + 1, f, g)
  {
    RowInside(idx, c, 0, i, |w|);
    var r := Scattered(w, idx, v, LANES);
    forall l, t | 0 <= l < LANES && 0 <= t < c
      ensures Place(c, l, t) < |r| && r[Place(c, l, t)] == if t < i + 1 then f(l, t) else g(l, t)
    {
      PlaceInside(c, l, t);
      if t == i {
        assert idx[l] == Start(c, 0 + l) + i == Place(c, l, t);
        ScatteredAt(w, idx, v, LANES, l);
      } else {
        OtherColumn(c, i, idx, l, t);
        ScatteredElsewhere(w, idx, v, LANES, Place(c, l, t));
      }
    }
  }

  lemma OtherColumn(c: nat, i: nat, idx: seq<nat>, l: nat, t: nat)
    requires Row(idx, c, 0, i) && i < c && l < LANES && t < c && t != i
    ensures forall m :: 0 <= m < LANES ==> idx[m] != Place(c, l, t)
  {
    forall m | 0 <= m < LANES ensures idx[m] != Place(c, l, t) {
      if m < l { Later(c, m, l); } else if l < m { Later(c, l, m); }
    }
  }

  // What a gather finds in the columns not yet written.
  lemma GatherColumn(w: seq<real>, c: nat, i: nat, f: (nat, nat) -> real, g: (nat, nat) -> real, idx: seq<nat>)
    requires Columns(w, c, i, f, g) && i < c && Row(idx, c, 0, i)
    ensures Inside(idx, |w|) && forall l :: 0 <= l < LANES ==> Gathered(w, idx)[l] == g(l, i)
  {
    RowInside(idx, c, 0, i, |w|);
    forall l | 0 <= l < LANES ensures Gathered(w, idx)[l] == g(l, i) {
      assert idx[l] == Start(c, 0 + l) + i == Place(c, l, i);
    }
  }

  // An array as it stands, column by column.
  function Cell(w: seq<real>, c: nat, l: nat, t: nat): real {
    if Place(c, l, t) < |w| then w[Place(c, l, t)] else 0.0
  }

  lemma AsColumns(w: seq<real>, c: nat, f: (nat, nat) -> real)
    requires |w| == Start(c, LANES)
    ensures Columns(w, c, 0, f, (l: nat, t: nat) => Cell(w, c, l, t))
  {
    forall l, t | 0 <= l < LANES && 0 <= t < c ensures Place(c, l, t) < |w| { PlaceInside(c, l, t); }
  }

  // ---------------------------------------------------------------------
  // The first pass.
  // ---------------------------------------------------------------------

  // The sum of chunk l up to element t, on top of the lane's offset.
  function Running(a: seq<real>, c: nat, offsets: seq<real>, l: nat, t: nat): real {
    if l < |offsets| then offsets[l] + Between(a, Start(c, l), Place(c, l, t) + 1) else 0.0
  }

  // Every chunk summed up on its own.
  ghost predicate Chunks(w: seq<real>, a: seq<real>, c: nat, offsets: seq<real>) {
    && |w| == Start(c, LANES)
    && forall l, t :: 0 <= l < LANES && 0 <= t < c ==> Place(c, l, t) < |w| && w[Place(c, l, t)] == Running(a, c, offsets, l, t)
  }

  ghost predicate LaneSums(sums: seq<real>, a: seq<real>, c: nat, i: nat, offsets: seq<real>) {
    |sums| == |offsets| == LANES && forall l :: 0 <= l < LANES ==> sums[l] == offsets[l] + Between(a, Start(c, l), Start(c, l) + i)
  }

  lemma OneMoreBetween(a: seq<real>, p: nat, q: nat)
    requires p <= q < |a|
    ensures Between(a, p, q + 1) == Between(a, p, q) + a[q]
  {
  }

  lemma JoinedBetween(a: seq<real>, p: nat, q: nat, r: nat)
    requires p <= q <= r <= |a|
    ensures Between(a, p, r) == Between(a, p, q) + Between(a, q, r)
  {
  }

  lemma NextLaneSums(sums: seq<real>, a: seq<real>, c: nat, i: nat, offsets: seq<real>, v: seq<real>)
    requires LaneSums(sums, a, c, i, offsets) && i < c && |a| == Start(c, LANES) && |v| == LANES
    requires forall l :: 0 <= l < LANES ==> v[l] == Cell(a, c, l, i)
    ensures LaneSums(Add(sums, v), a, c, i + 1, offsets)
    ensures forall l :: 0 <= l < LANES ==> Add(sums, v)[l] == Running(a, c, offsets, l, i)
  {
    hide Between, Start;
    forall l | 0 <= l < LANES ensures Add(sums, v)[l] == offsets[l] + Between(a, Start(c, l), Start(c, l) + i + 1) {
      PlaceInside(c, l, i);
      OneMoreBetween(a, Start(c, l), Start(c, l) + i);
    }
  }

  // One step of the first pass, on windows that may be the same.
  method Column(input: array<real>, output: array<real>, lo: nat, len: nat, c: nat, i: nat, idx: seq<nat>, sums: seq<real>,
                ghost a: seq<real>, ghost offsets: seq<real>, ghost f: (nat, nat) -> real, ghost g: (nat, nat) -> real)
    returns (sums': seq<real>)
    requires lo + len <= input.Length && lo + len <= output.Length && len == Start(c, LANES) == |a| && i < c
    requires Row(idx, c, 0, i) && LaneSums(sums, a, c, i, offsets)
    requires forall l: nat, t: nat :: f(l, t) == Running(a, c, offsets, l, t)
    requires Columns(output[lo..lo + len], c, i, f, g)
    requires if input == output then (forall l: nat, t: nat :: g(l, t) == Cell(a, c, l, t)) else input[lo..lo + len] == a
    modifies output
    ensures Columns(output[lo..lo + len], c, i + 1, f, g) && LaneSums(sums', a, c, i + 1, offsets)
    ensures output[..lo] == old(output[..lo]) && output[lo + len..] == old(output[lo + len..])
  {
    RowInside(idx, c, 0, i, len);
    if input == output {
      GatherColumn(input[lo..lo + len], c, i, f, g, idx);
    } else {
      ReadsInput(a, c, i, idx);
    }
    var v := Gather(input, lo, len, idx);
    NextLaneSums(sums, a, c, i, offsets, v);
    sums' := Add(sums, v);
    NextColumn(output[lo..lo + len], c, i, f, g, idx, sums');
    Scatter(output, lo, len, idx, sums');
  }

  lemma ReadsInput(a: seq<real>, c: nat, i: nat, idx: seq<nat>)
    requires |a| == Start(c, LANES) && i < c && Row(idx, c, 0, i)
    ensures Inside(idx, |a|) && forall l :: 0 <= l < LANES ==> Gathered(a, idx)[l] == Cell(a, c, l, i)
  {
    RowInside(idx, c, 0, i, |a|);
    forall l | 0 <= l < LANES ensures Gathered(a, idx)[l] == Cell(a, c, l, i) {
      assert idx[l] == Start(c, 0 + l) + i == Place(c, l, i);
    }
  }

  // Sums up each chunk in its own lane, starting from the lane's offset.
  method VerticalHelper(input: array<real>, output: array<real>, lo: nat, len: nat, c: nat, offsets: seq<real>) returns (sums: seq<real>)
    requires lo + len <= input.Length && lo + len <= output.Length && len == Start(c, LANES) && |offsets| == LANES
    modifies output
    ensures Chunks(output[lo..lo + len], old(input[lo..lo + len]), c, offsets)
    ensures LaneSums(sums, old(input[lo..lo + len]), c, c, offsets)
    ensures output[..lo] == old(output[..lo]) && output[lo + len..] == old(output[lo + len..])
  {
    ghost var a, w := input[lo..lo + len], output[lo..lo + len];
    ghost var f: (nat, nat) -> real := (l: nat, t: nat) => Running(a, c, offsets, l, t);
    ghost var g: (nat, nat) -> real := (l: nat, t: nat) => Cell(w, c, l, t);
    AsColumns(w, c, f);
    FirstRow(c, 0);
    sums := offsets;
    var idx := Strided(0, c);
    var i := 0;
    while i < c
      invariant 0 <= i <= c && Row(idx, c, 0, i) && LaneSums(sums, a, c, i, offsets)
      invariant Columns(output[lo..lo + len], c, i, f, g)
      invariant input != output ==> input[lo..lo + len] == a
      invariant output[..lo] == old(output[..lo]) && output[lo + len..] == old(output[lo + len..])
    {
      sums := Column(input, output, lo, len, c, i, idx, sums, a, offsets, f, g);
      idx := AddIndex(idx, 1);
      i := i + 1;
    }
  }

  // ---------------------------------------------------------------------
  // The second pass.
  // ---------------------------------------------------------------------

  // With the sum of all earlier chunks as offset, a chunk's sums are the
  // prefix sums.
  ghost predicate TrueOffsets(offsets: seq<real>, a: seq<real>, c: nat) {
    |a| == Start(c, LANES) && |offsets| == LANES && forall l :: 0 <= l < LANES ==> offsets[l] == Between(a, 0, Start(c, l))
  }

  lemma ChunksAreSums(w: seq<real>, a: seq<real>, c: nat, offsets: seq<real>)
    requires Chunks(w, a, c, offsets) && TrueOffsets(offsets, a, c)
    ensures w == InclusiveSums(a)
  {
    forall j | 0 <= j < |w| ensures w[j] == Prefix(a, j + 1) {
      var l, t := Locate(c, LANES, j);
      assert w[Place(c, l, t)] == Running(a, c, offsets, l, t);
    }
  }

  // The lane scan of the chunk totals gives the offsets.
  lemma {:induction false} TotalsAdd(sums: seq<real>, a: seq<real>, c: nat, zeros: seq<real>, n: nat)
    requires LaneSums(sums, a, c, c, zeros) && |a| == Start(c, LANES) && n <= LANES && zeros == Broadcast(0.0)
    ensures Start(c, n) <= |a| && Prefix(sums, n) == Between(a, 0, Start(c, n))
  {
    NoLater(c, n, LANES);
    if n > 0 {
      TotalsAdd(sums, a, c, zeros, n - 1);
      LaneTotal(sums, a, c, zeros, n - 1);
      hide Between, LaneSums;
      JoinedBetween(a, 0, Start(c, n - 1), Start(c, n - 1) + c);
    }
  }

  lemma LaneTotal(sums: seq<real>, a: seq<real>, c: nat, zeros: seq<real>, l: nat)
    requires LaneSums(sums, a, c, c, zeros) && zeros == Broadcast(0.0) && l < LANES
    ensures sums[l] == Between(a, Start(c, l), Start(c, l) + c)
  {
    assert zeros[l] == 0.0;
  }

  lemma ScannedOffsets(sums: seq<real>, a: seq<real>, c: nat)
    requires LaneSums(sums, a, c, c, Broadcast(0.0)) && |a| == Start(c, LANES)
    ensures TrueOffsets(Scan(Shifted(sums, 1)), a, c)
  {
    ScanSums(Shifted(sums, 1));
    forall l | 0 <= l < LANES ensures Scan(Shifted(sums, 1))[l] == Between(a, 0, Start(c, l)) {
      ShiftedSums(sums, l);
      TotalsAdd(sums, a, c, Broadcast(0.0), l);
    }
  }

  // One more element of every chunk gets the sum of the chunks before.
  method Raise(output: array<real>, lo: nat, len: nat, c: nat, i: nat, idx: seq<nat>, sums: seq<real>,
               ghost f: (nat, nat) -> real, ghost g: (nat, nat) -> real)
    requires lo + len <= output.Length && len == Start(c, LANES) && i < c && Row(idx, c, 0, i) && |sums| == LANES
    requires Columns(output[lo..lo + len], c, i, f, g) && forall l :: 0 <= l < LANES ==> f(l, i) == sums[l] + g(l, i)
    modifies output
    ensures Columns(output[lo..lo + len], c, i + 1, f, g)
    ensures output[..lo] == old(output[..lo]) && output[lo + len..] == old(output[lo + len..])
  {
    GatherColumn(output[lo..lo + len], c, i, f, g, idx);
    var v := Gather(output, lo, len, idx);
    NextColumn(output[lo..lo + len], c, i, f, g, idx, Add(sums, v));
    Scatter(output, lo, len, idx, Add(sums, v));
  }

  lemma ChunksAsColumns(w: seq<real>, a: seq<real>, c: nat, offsets: seq<real>, f: (nat, nat) -> real, g: (nat, nat) -> real)
    requires Chunks(w, a, c, Broadcast(0.0)) && |offsets| == LANES
    requires forall l: nat, t: nat :: f(l, t) == Running(a, c, offsets, l, t)
    requires forall l: nat, t: nat :: g(l, t) == Running(a, c, Broadcast(0.0), l, t)
    ensures Columns(w, c, 0, f, g)
    ensures forall l, t :: 0 <= l < LANES && 0 <= t < c ==> f(l, t) == offsets[l] + g(l, t)
  {
  }

  lemma ColumnsAsChunks(w: seq<real>, a: seq<real>, c: nat, offsets: seq<real>, f: (nat, nat) -> real, g: (nat, nat) -> real)
    requires Columns(w, c, c, f, g) && forall l: nat, t: nat :: f(l, t) == Running(a, c, offsets, l, t)
    ensures Chunks(w, a, c, offsets)
  {
  }

  // Every chunk raised by its offset, by gather and scatter.
  method RaiseAll(output: array<real>, lo: nat, len: nat, c: nat, sums: seq<real>, ghost a: seq<real>)
    requires lo + len <= output.Length && len == Start(c, LANES) && |sums| == LANES
    requires Chunks(output[lo..lo + len], a, c, Broadcast(0.0))
    modifies output
    ensures Chunks(output[lo..lo + len], a, c, sums)
    ensures output[..lo] == old(output[..lo]) && output[lo + len..] == old(output[lo + len..])
  {
    ghost var f: (nat, nat) -> real := (l: nat, t: nat) => Running(a, c, sums, l, t);
    ghost var g: (nat, nat) -> real := (l: nat, t: nat) => Running(a, c, Broadcast(0.0), l, t);
    ChunksAsColumns(output[lo..lo + len], a, c, sums, f, g);
    FirstRow(c, 0);
    var idx := Strided(0, c);
    var i := 0;
    while i < c
      invariant 0 <= i <= c && Row(idx, c, 0, i)
      invariant Columns(output[lo..lo + len], c, i, f, g)
      invariant output[..lo] == old(output[..lo]) && output[lo + len..] == old(output[lo + len..])
    {
      Raise(output, lo, len, c, i, idx, sums, f, g);
      idx := AddIndex(idx, 1);
      i := i + 1;
    }
    ColumnsAsChunks(output[lo..lo + len], a, c, sums, f, g);
  }

  // Chunk sums, then the sum of the earlier chunks added by gather and scatter.
  method Vertical1(input: array<real>, output: array<real>, lo: nat, len: nat)
    requires lo + len <= input.Length && lo + len <= output.Length && len > 16 && len % 16 == 0
    modifies output
    ensures output[lo..lo + len] == InclusiveSums(old(input[lo..lo + len]))
    ensures output[..lo] == old(output[..lo]) && output[lo + len..] == old(output[lo + len..])
  {
    var c := len / 16;
    StartIs(c, LANES);
    ghost var a := input[lo..lo + len];
    var sums := VerticalHelper(input, output, lo, len, c, Broadcast(0.0));
    ScannedOffsets(sums, a, c);
    sums := Scan(Shifted(sums, 1));
    RaiseAll(output, lo, len, c, sums, a);
    ChunksAreSums(output[lo..lo + len], a, c, sums);
  }

  // Sixteen neighbours at a time.
  method Increase(x: array<real>, begin: nat, end: nat, inc: real)
    requires begin <= end <= x.Length && (end - begin) % LANES == 0
    modifies x
    ensures forall j :: 0 <= j < x.Length ==> x[j] == old(x[j]) + if begin <= j < end then inc else 0.0
  {
    var i := begin;
    while i < end
      invariant begin <= i <= end && (end - i) % LANES == 0
      invariant forall j :: 0 <= j < x.Length ==> x[j] == old(x[j]) + if begin <= j < i then inc else 0.0
    {
      forall l | 0 <= l < LANES { x[i + l] := x[i + l] + inc; }
      i := i + LANES;
    }
  }

  // The chunks below j are done, the others summed up on their own.
  ghost predicate Carried(w: seq<real>, a: seq<real>, c: nat, j: nat) {
    && |w| == |a| == Start(c, LANES)
    && forall l, t :: 0 <= l < LANES && 0 <= t < c ==>
         Place(c, l, t) < |w| && w[Place(c, l, t)] == Between(a, if l < j then 0 else Start(c, l), Place(c, l, t) + 1)
  }

  // One element while chunk j is raised by the sum of the chunks before it.
  lemma CarryAt(a: seq<real>, c: nat, j: nat, l: nat, t: nat, x: real, inc: real)
    requires |a| == Start(c, LANES) && 0 < j < LANES && l < LANES && t < c
    requires x == Between(a, if l < j then 0 else Start(c, l), Place(c, l, t) + 1)
    requires inc == Between(a, 0, Start(c, j))
    ensures var raised := x + if Start(c, j) <= Place(c, l, t) < Start(c, j) + c then inc else 0.0;
            raised == Between(a, if l < j + 1 then 0 else Start(c, l), Place(c, l, t) + 1)
  {
    PlaceInside(c, l, t);
    if l < j { Later(c, l, j); } else if l > j { Later(c, j, l); }
  }

  lemma CarryNext(w: seq<real>, w': seq<real>, a: seq<real>, c: nat, j: nat)
    requires Carried(w, a, c, j) && 0 < j < LANES && c > 0 && |w'| == |w|
    requires Start(c, j) < |w|
    requires forall p :: 0 <= p < |w| ==> w'[p] == w[p] + if Start(c, j) <= p < Start(c, j) + c then w[Start(c, j) - 1] else 0.0
    ensures Carried(w', a, c, j + 1)
  {
    var inc := w[Start(c, j) - 1];
    assert Place(c, j - 1, c - 1) == Start(c, j) - 1;
    assert inc == w[Place(c, j - 1, c - 1)] == Between(a, 0, Start(c, j));
    forall l, t | 0 <= l < LANES && 0 <= t < c
      ensures Place(c, l, t) < |w'| && w'[Place(c, l, t)] == Between(a, if l < j + 1 then 0 else Start(c, l), Place(c, l, t) + 1)
    {
      CarryAt(a, c, j, l, t, w[Place(c, l, t)], inc);
    }
  }

  lemma CarriedAll(w: seq<real>, a: seq<real>, c: nat)
    requires Carried(w, a, c, LANES)
    ensures w == InclusiveSums(a)
  {
    forall p | 0 <= p < |w| ensures w[p] == Prefix(a, p + 1) {
      var l, t := Locate(c, LANES, p);
      assert w[Place(c, l, t)] == Between(a, 0, Place(c, l, t) + 1);
    }
  }

  lemma ChunksAreCarried(w: seq<real>, a: seq<real>, c: nat)
    requires Chunks(w, a, c, Broadcast(0.0)) && |a| == Start(c, LANES)
    ensures Carried(w, a, c, 1)
  {
    forall l, t | 0 <= l < LANES && 0 <= t < c
      ensures w[Place(c, l, t)] == Between(a, if l < 1 then 0 else Start(c, l), Place(c, l, t) + 1)
    {
      assert w[Place(c, l, t)] == Running(a, c, Broadcast(0.0), l, t);
    }
  }

  // One chunk gets the last element of the chunk before.
  method Carry(output: array<real>, lo: nat, len: nat, c: nat, j: nat, ghost a: seq<real>)
    requires lo + len <= output.Length && len == c * LANES && c > 0 && c % LANES == 0 && 0 < j < LANES
    requires Carried(output[lo..lo + len], a, c, j)
    modifies output
    ensures Carried(output[lo..lo + len], a, c, j + 1)
    ensures output[..lo] == old(output[..lo]) && output[lo + len..] == old(output[lo + len..])
  {
    StartIs(c, j);
    Later(c, j, LANES);
    Later(c, 0, j);
    ghost var w := output[lo..lo + len];
    var begin := j * c;
    var previousSum := output[lo + begin - 1];
    assert previousSum == w[begin - 1];
    Increase(output, lo + begin, lo + begin + c, previousSum);
    CarryNext(w, output[lo..lo + len], a, c, j);
  }

  // Chunk sums, then each chunk raised by the last element of the one before.
  method Vertical2(input: array<real>, output: array<real>, lo: nat, len: nat)
    requires lo + len <= input.Length && lo + len <= output.Length && len > 16 && len % 16 == 0 && (len / 16) % 16 == 0
    modifies output
    ensures output[lo..lo + len] == InclusiveSums(old(input[lo..lo + len]))
    ensures output[..lo] == old(output[..lo]) && output[lo + len..] == old(output[lo + len..])
  {
    var c := len / 16;
    StartIs(c, LANES);
    ghost var a := input[lo..lo + len];
    var _ := VerticalHelper(input, output, lo, len, c, Broadcast(0.0));
    ChunksAreCarried(output[lo..lo + len], a, c);
    var j := 1;
    while j < 16
      invariant 1 <= j <= 16
      invariant Carried(output[lo..lo + len], a, c, j)
      invariant output[..lo] == old(output[..lo]) && output[lo + len..] == old(output[lo + len..])
    {
      Carry(output, lo, len, c, j, a);
      j := j + 1;
    }
    CarriedAll(output[lo..lo + len], a, c);
  }

  // ---------------------------------------------------------------------
  // Totals first.
  // ---------------------------------------------------------------------

  // Lane 0 idle, lane l on element i of chunk l - 1.
  ghost predicate RowBehind(idx: seq<nat>, c: nat, i: nat) {
    |idx| == LANES && idx[0] == 0 && forall l :: 1 <= l < LANES ==> idx[l] == Place(c, l - 1, i)
  }

  ghost predicate SumsBehind(sum: seq<real>, a: seq<real>, c: nat, i: nat) {
    |sum| == LANES && sum[0] == 0.0 && forall l :: 1 <= l < LANES ==> sum[l] == Between(a, Start(c, l - 1), Start(c, l - 1) + i)
  }

  function IndexBehind(c: nat): (idx: seq<nat>)
    ensures RowBehind(idx, c, 0)
  {
    var idx := seq(LANES, l requires 0 <= l < LANES => if l == 0 then 0 else c * (l - 1));
    assert forall l :: 1 <= l < LANES ==> idx[l] == Place(c, l - 1, 0) by {
      forall l | 1 <= l < LANES ensures idx[l] == Place(c, l - 1, 0) { StartIs(c, l - 1); }
    }
    idx
  }

  // A gather whose lane 0 reads nothing.
  method MaskedGather(x: array<real>, lo: nat, len: nat, idx: seq<nat>) returns (r: seq<real>)
    requires lo + len <= x.Length && Inside(idx, len)
    ensures |r| == LANES && r[0] == 0.0 && forall l :: 1 <= l < LANES ==> r[l] == x[lo..lo + len][idx[l]]
  {
    r := seq(LANES, l requires 0 <= l < LANES reads x => if l == 0 then 0.0 else x[lo + idx[l]]);
  }

  method ChunkTotals(input: array<real>, lo: nat, len: nat, c: nat) returns (sum: seq<real>)
    requires lo + len <= input.Length && len == Start(c, LANES) && c > 0
    ensures SumsBehind(sum, input[lo..lo + len], c, c)
  {
    ghost var a := input[lo..lo + len];
    var idx := IndexBehind(c);
    sum := Broadcast(0.0);
    var i := 0;
    while i < c
      invariant 0 <= i <= c && RowBehind(idx, c, i) && SumsBehind(sum, a, c, i)
    {
      BehindInside(a, c, i, idx);
      var v := MaskedGather(input, lo, len, idx);
      sum := Add(sum, v);
      idx := seq(LANES, l requires 0 <= l < LANES => if l == 0 then 0 else idx[l] + 1);
      i := i + 1;
    }
  }

  lemma BehindInside(a: seq<real>, c: nat, i: nat, idx: seq<nat>)
    requires |a| == Start(c, LANES) && i < c && RowBehind(idx, c, i)
    ensures Inside(idx, |a|)
    ensures forall l :: 1 <= l < LANES ==>
              Between(a, Start(c, l - 1), Start(c, l - 1) + i + 1) == Between(a, Start(c, l - 1), Start(c, l - 1) + i) + a[idx[l]]
  {
    PlaceInside(c, 0, i);
    forall l | 1 <= l < LANES
      ensures idx[l] < |a|
      ensures Between(a, Start(c, l - 1), Start(c, l - 1) + i + 1) == Between(a, Start(c, l - 1), Start(c, l - 1) + i) + a[idx[l]]
    {
      PlaceInside(c, l - 1, i);
    }
  }

  lemma {:induction false} BehindAdd(sum: seq<real>, a: seq<real>, c: nat, n: nat)
    requires SumsBehind(sum, a, c, c) && |a| == Start(c, LANES) && n < LANES
    ensures Start(c, n) <= |a| && Prefix(sum, n + 1) == Between(a, 0, Start(c, n))
  {
    NoLater(c, n, LANES);
    if n > 0 {
      BehindAdd(sum, a, c, n - 1);
      assert sum[n] == Between(a, Start(c, n - 1), Start(c, n - 1) + c);
    } else {
      assert Prefix(sum, 0) == 0.0;
    }
  }

  // Chunk totals, then the sums of every chunk on top of the earlier ones.
  method Vertical3(input: array<real>, output: array<real>, lo: nat, len: nat)
    requires lo + len <= input.Length && lo + len <= output.Length && len > 16 && len % 16 == 0
    modifies output
    ensures output[lo..lo + len] == InclusiveSums(old(input[lo..lo + len]))
    ensures output[..lo] == old(output[..lo]) && output[lo + len..] == old(output[lo + len..])
  {
    var c := len / 16;
    StartIs(c, LANES);
    ghost var a := input[lo..lo + len];
    var sum := ChunkTotals(input, lo, len, c);
    ScanSums(sum);
    forall l | 0 <= l < LANES ensures Scan(sum)[l] == Between(a, 0, Start(c, l)) { BehindAdd(sum, a, c, l); }
    sum := Scan(sum);
    var _ := VerticalHelper(input, output, lo, len, c, sum);
    ChunksAreSums(output[lo..lo + len], a, c, sum);
  }

  lemma {:induction false} PrefixOfSum(u: seq<real>, v: seq<real>, n: nat)
    requires |u| == |v| == LANES && n <= LANES
    ensures Prefix(Add(u, v), n) == Prefix(u, n) + Prefix(v, n)
  {
    if n > 0 { PrefixOfSum(u, v, n - 1); }
  }

  lemma {:induction false} PrefixOfSlice(a: seq<real>, p: nat, v: seq<real>, n: nat)
    requires n <= |v| && p + |v| <= |a| && forall l :: 0 <= l < |v| ==> v[l] == a[p + l]
    ensures Prefix(v, n) == Between(a, p, p + n)
  {
    if n > 0 { PrefixOfSlice(a, p, v, n - 1); }
  }

  // Sixteen running sums side by side, added up at the end.
  method AccumulateSimd(x: array<real>, begin: nat, len: nat) returns (sum: real)
    requires begin + len <= x.Length && len % LANES == 0
    ensures sum == Between(x[..], begin, begin + len)
  {
    var sums := Broadcast(0.0);
    PrefixOfZeros(LANES);
    var i := 0;
    while i < len
      invariant 0 <= i <= len && (len - i) % LANES == 0 && |sums| == LANES
      invariant Prefix(sums, LANES) == Between(x[..], begin, begin + i)
    {
      var v := seq(LANES, l requires 0 <= l < LANES reads x => x[begin + i + l]);
      PrefixOfSlice(x[..], begin + i, v, LANES);
      PrefixOfSum(sums, v, LANES);
      sums := Add(sums, v);
      i := i + LANES;
    }
    sum := Prefix(sums, LANES);
  }

  lemma {:induction false} PrefixOfZeros(n: nat)
    requires n <= LANES
    ensures Prefix(Broadcast(0.0), n) == 0.0
  {
    if n > 0 { PrefixOfZeros(n - 1); }
  }

  lemma BetweenInWindow(x: seq<real>, lo: nat, len: nat, p: nat, q: nat)
    requires lo + len <= |x| && p <= q <= len
    ensures Between(x, lo + p, lo + q) == Between(x[lo..lo + len], p, q)
  {
    PrefixOfSlice(x, lo, x[lo..lo + len], p);
    PrefixOfSlice(x, lo, x[lo..lo + len], q);
  }

  // The total of one chunk, added to those before it.
  method NextTotal(input: array<real>, lo: nat, len: nat, c: nat, i: nat, before: real) returns (total: real)
    requires lo + len <= input.Length && len == Start(c, LANES) && c % LANES == 0 && i < 15
    requires before == Between(input[lo..lo + len], 0, Start(c, i))
    ensures total == Between(input[lo..lo + len], 0, Start(c, i + 1))
  {
    StartIs(c, i);
    NoLater(c, i + 1, LANES);
    BetweenInWindow(input[..], lo, len, Start(c, i), Start(c, i + 1));
    assert input[..][lo..lo + len] == input[lo..lo + len];
    total := AccumulateSimd(input, lo + i * c, c);
    total := before + total;
  }

  method OffsetsOneByOne(input: array<real>, lo: nat, len: nat, c: nat) returns (sums: seq<real>)
    requires lo + len <= input.Length && len == Start(c, LANES) && c % LANES == 0
    ensures TrueOffsets(sums, input[lo..lo + len], c)
  {
    sums := Broadcast(0.0);
    var i := 0;
    while i < 15
      invariant 0 <= i <= 15 && |sums| == LANES
      invariant forall l :: 0 <= l <= i ==> sums[l] == Between(input[lo..lo + len], 0, Start(c, l))
    {
      var total := NextTotal(input, lo, len, c, i, sums[i]);
      sums := sums[i + 1 := total];
      i := i + 1;
    }
  }

  // Chunk totals one after the other, then the sums of every chunk.
  method Vertical4(input: array<real>, output: array<real>, lo: nat, len: nat)
    requires lo + len <= input.Length && lo + len <= output.Length && len > 16 && len % 16 == 0 && (len / 16) % 16 == 0
    modifies output
    ensures output[lo..lo + len] == InclusiveSums(old(input[lo..lo + len]))
    ensures output[..lo] == old(output[..lo]) && output[lo + len..] == old(output[lo + len..])
  {
    var c := len / 16;
    StartIs(c, LANES);
    ghost var a := input[lo..lo + len];
    var sums := OffsetsOneByOne(input, lo, len, c);
    var _ := VerticalHelper(input, output, lo, len, c, sums);
    ChunksAreSums(output[lo..lo + len], a, c, sums);
  }

  // ---------------------------------------------------------------------
  // The driver.
  // ---------------------------------------------------------------------

  predicate Fits(len: nat, algoId: nat) {
    len > 16 && len % 16 == 0 && 1 <= algoId <= 4 && (algoId == 2 || algoId == 4 ==> (len / 16) % 16 == 0)
  }

  method Scan16(x: array<real>, lo: nat, len: nat, algoId: nat)
    requires lo + len <= x.Length && Fits(len, algoId)
    modifies x
    ensures x[lo..lo + len] == InclusiveSums(old(x[lo..lo + len]))
    ensures x[..lo] == old(x[..lo]) && x[lo + len..] == old(x[lo + len..])
  {
    if algoId == 1 {
      Vertical1(x, x, lo, len);
    } else if algoId == 2 {
      Vertical2(x, x, lo, len);
    } else if algoId == 3 {
      Vertical3(x, x, lo, len);
    } else {
      Vertical4(x, x, lo, len);
    }
  }

  // The partitions below base are done, on top of the offset.
  ghost predicate Partitioned(x: seq<real>, a: seq<real>, base: nat, offset: real) {
    && base <= |x| == |a|
    && (forall j :: 0 <= j < base ==> x[j] == offset + Prefix(a, j + 1))
    && (forall j :: base <= j < |a| ==> x[j] == a[j])
  }

  // A partition whose first element carries the total so far.
  lemma {:induction false} CarriedPrefix(a: seq<real>, b: seq<real>, base: nat, carry: real, k: nat)
    requires 1 <= k <= |b| && base + |b| <= |a|
    requires b[0] == a[base] + carry && forall i :: 1 <= i < |b| ==> b[i] == a[base + i]
    ensures Prefix(b, k) == carry + Between(a, base, base + k)
  {
    if k > 1 { CarriedPrefix(a, b, base, carry, k - 1); } else { assert Prefix(b, 0) == 0.0; }
  }

  lemma PartitionDone(x: seq<real>, b: seq<real>, x': seq<real>, a: seq<real>, base: nat, len: nat, offset: real, carry: real)
    requires Partitioned(x, a, base, offset) && len > 0 && base + len <= |a| && |x'| == |x|
    requires carry == offset + Prefix(a, base)
    requires b == x[base := x[base] + carry][base..base + len]
    requires x'[base..base + len] == InclusiveSums(b) && x'[..base] == x[..base] && x'[base + len..] == x[base + len..]
    ensures Partitioned(x', a, base + len, offset)
    ensures x'[base + len - 1] == offset + Prefix(a, base + len)
  {
    forall j | 0 <= j < base + len ensures x'[j] == offset + Prefix(a, j + 1) {
      if j < base {
        assert x'[..base][j] == x[..base][j];
      } else {
        CarriedPrefix(a, b, base, carry, j - base + 1);
        assert x'[j] == x'[base..base + len][j - base];
      }
    }
    forall j | base + len <= j < |a| ensures x'[j] == a[j] {
      assert x'[base + len..][j - (base + len)] == x[base + len..][j - (base + len)];
    }
  }

  method NextPartition(x: array<real>, base: nat, len: nat, algoId: nat, carry: real, ghost a: seq<real>, ghost offset: real) returns (carry': real)
    requires base + len <= x.Length && Fits(len, algoId)
    requires Partitioned(x[..], a, base, offset) && carry == offset + Prefix(a, base)
    modifies x
    ensures Partitioned(x[..], a, base + len, offset) && carry' == offset + Prefix(a, base + len)
  {
    ghost var x0 := x[..];
    x[base] := x[base] + carry;
    assert x[..] == x0[base := x0[base] + carry];
    ghost var b := x[base..base + len];
    Scan16(x, base, len, algoId);
    assert x[..][base..base + len] == x[base..base + len];
    assert x[..][..base] == x0[..base] && x[..][base + len..] == x0[base + len..];
    PartitionDone(x0, b, x[..], a, base, len, offset, carry);
    carry' := x[base + len - 1];
  }

  // Any number of partitions, by any of the four scans: the inclusive prefix
  // sums of the whole array on top of the given offset.
  method PrefixSumVertical(x: array<real>, partitionLen: nat, algoId: nat, inputOffset: real)
    requires Fits(partitionLen, algoId) && x.Length % partitionLen == 0
    modifies x
    ensures forall j :: 0 <= j < x.Length ==> x[j] == inputOffset + Prefix(old(x[..]), j + 1)
  {
    ghost var a := x[..];
    var last := inputOffset;
    var base := 0;
    while base < x.Length
      invariant base <= x.Length && (x.Length - base) % partitionLen == 0
      invariant Partitioned(x[..], a, base, inputOffset) && last == inputOffset + Prefix(a, base)
      decreases x.Length - base
    {
      ChunkFits(x.Length - base, partitionLen);
      last := NextPartition(x, base, partitionLen, algoId, last, a, inputOffset);
      base := base + partitionLen;
    }
  }
}
