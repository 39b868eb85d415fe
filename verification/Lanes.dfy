/**
 * Sixteen-lane vectors over exact reals: gather, scatter, lane shift and the
 * log-step lane scan of `helper_functions.h`.
 */
module Lanes {
  import opened TreeScan

  const LANES := 16

  predicate Inside(idx: seq<nat>, len: nat) {
    |idx| == LANES && forall l :: 0 <= l < LANES ==> idx[l] < len
  }

  predicate Spread(idx: seq<nat>) {
    forall l, m :: 0 <= l < m < |idx| ==> idx[l] != idx[m]
  }

  // The elements a gather reads.
  function Gathered(s: seq<real>, idx: seq<nat>): (r: seq<real>)
    requires Inside(idx, |s|)
    ensures |r| == LANES && forall l :: 0 <= l < LANES ==> r[l] == s[idx[l]]
  {
    seq(LANES, l requires 0 <= l < LANES => s[idx[l]])
  }

  function Add(u: seq<real>, v: seq<real>): (r: seq<real>)
    requires |u| == |v| == LANES
    ensures |r| == LANES && forall l :: 0 <= l < LANES ==> r[l] == u[l] + v[l]
  {
    seq(LANES, l requires 0 <= l < LANES => u[l] + v[l])
  }

  function Broadcast(v: real): (r: seq<real>)
    ensures |r| == LANES && forall l :: 0 <= l < LANES ==> r[l] == v
  {
    seq(LANES, _ => v)
  }

  // Index vector: start, start + stride and so on.
  function Strided(start: nat, stride: nat): (idx: seq<nat>)
    ensures |idx| == LANES && forall l :: 0 <= l < LANES ==> idx[l] == start + stride * l
  {
    seq(LANES, l requires 0 <= l < LANES => start + stride * l)
  }

  function AddIndex(idx: seq<nat>, inc: nat): (r: seq<nat>)
    requires |idx| == LANES
    ensures |r| == LANES && forall l :: 0 <= l < LANES ==> r[l] == idx[l] + inc
  {
    seq(LANES, l requires 0 <= l < LANES => idx[l] + inc)
  }

  // A scatter writes its lanes from the lowest to the highest.
  function Scattered(s: seq<real>, idx: seq<nat>, v: seq<real>, n: nat): (r: seq<real>)
    requires Inside(idx, |s|) && |v| == LANES && n <= LANES
    ensures |r| == |s|
  {
    if n == 0 then s else Scattered(s, idx, v, n - 1)[idx[n - 1] := v[n - 1]]
  }

  lemma {:induction false} ScatteredAt(s: seq<real>, idx: seq<nat>, v: seq<real>, n: nat, l: nat)
    requires Inside(idx, |s|) && |v| == LANES && l < n <= LANES && Spread(idx)
    ensures Scattered(s, idx, v, n)[idx[l]] == v[l]
  {
    if l < n - 1 { ScatteredAt(s, idx, v, n - 1, l); }
  }

  lemma {:induction false} ScatteredElsewhere(s: seq<real>, idx: seq<nat>, v: seq<real>, n: nat, j: nat)
    requires Inside(idx, |s|) && |v| == LANES && n <= LANES && j < |s|
    requires forall l :: 0 <= l < n ==> idx[l] != j
    ensures Scattered(s, idx, v, n)[j] == s[j]
  {
    if n > 0 { ScatteredElsewhere(s, idx, v, n - 1, j); }
  }

  method Gather(x: array<real>, lo: nat, len: nat, idx: seq<nat>) returns (r: seq<real>)
    requires lo + len <= x.Length && Inside(idx, len)
    ensures r == Gathered(x[lo..lo + len], idx)
  {
    r := seq(LANES, l requires 0 <= l < LANES reads x => x[lo + idx[l]]);
  }

  method Scatter(x: array<real>, lo: nat, len: nat, idx: seq<nat>, v: seq<real>)
    requires lo + len <= x.Length && Inside(idx, len) && |v| == LANES
    modifies x
    ensures x[lo..lo + len] == Scattered(old(x[lo..lo + len]), idx, v, LANES)
    ensures x[..lo] == old(x[..lo]) && x[lo + len..] == old(x[lo + len..])
  {
    var l := 0;
    while l < LANES
      invariant 0 <= l <= LANES
      invariant x[lo..lo + len] == Scattered(old(x[lo..lo + len]), idx, v, l)
      invariant x[..lo] == old(x[..lo]) && x[lo + len..] == old(x[lo + len..])
    {
      SetElement(x, lo, len, idx[l], v[l]);
      l := l + 1;
    }
  }

  // ---------------------------------------------------------------------
  // The lane scan.
  // ---------------------------------------------------------------------

  // Lanes moved up by n, with zeros coming in.
  function Shifted(x: seq<real>, n: nat): (r: seq<real>)
    requires |x| == LANES
    ensures |r| == LANES && forall l :: 0 <= l < LANES ==> r[l] == if l < n then 0.0 else x[l - n]
  {
    seq(LANES, l requires 0 <= l < LANES => if l < n then 0.0 else x[l - n])
  }

  // Each lane holds the sum of the w lanes up to it, or of all there are.
  ghost predicate Windows(r: seq<real>, x: seq<real>, w: nat)
    requires |x| == LANES
  {
    |r| == LANES && forall l :: 0 <= l < LANES ==> r[l] == Prefix(x, l + 1) - Prefix(x, if l + 1 < w then 0 else l + 1 - w)
  }

  lemma WindowsDouble(r: seq<real>, x: seq<real>, w: nat)
    requires |x| == LANES && Windows(r, x, w) && w > 0
    ensures Windows(Add(r, Shifted(r, w)), x, 2 * w)
  {
  }

  function Scan(x: seq<real>): (r: seq<real>)
    requires |x| == LANES
    ensures |r| == LANES
  {
    var x1 := Add(x, Shifted(x, 1));
    var x2 := Add(x1, Shifted(x1, 2));
    var x4 := Add(x2, Shifted(x2, 4));
    Add(x4, Shifted(x4, 8))
  }

  // Four doublings make the inclusive prefix sums of the lanes.
  lemma ScanSums(x: seq<real>)
    requires |x| == LANES
    ensures forall l :: 0 <= l < LANES ==> Scan(x)[l] == Prefix(x, l + 1)
  {
    var x1 := Add(x, Shifted(x, 1));
    var x2 := Add(x1, Shifted(x1, 2));
    var x4 := Add(x2, Shifted(x2, 4));
    assert Windows(x, x, 1);
    WindowsDouble(x, x, 1);
    WindowsDouble(x1, x, 2);
    WindowsDouble(x2, x, 4);
    WindowsDouble(x4, x, 8);
  }

  // Shifting up by one first gives the exclusive ones.
  lemma {:induction false} ShiftedSums(x: seq<real>, n: nat)
    requires |x| == LANES && n < LANES
    ensures Prefix(Shifted(x, 1), n + 1) == Prefix(x, n)
  {
    if n > 0 { ShiftedSums(x, n - 1); } else { assert Prefix(Shifted(x, 1), 0) == 0.0; }
  }

  // ---------------------------------------------------------------------
  // Index vectors over blocks of one width.
  // ---------------------------------------------------------------------

  // Where block k of width d starts.
  function Start(d: nat, k: nat): nat {
    if k == 0 then 0 else Start(d, k - 1) + d
  }

  lemma {:induction false} StartIs(d: nat, k: nat)
    ensures Start(d, k) == d * k
  {
    if k > 0 { StartIs(d, k - 1); }
  }

  lemma {:induction false} Later(d: nat, p: nat, q: nat)
    requires p < q
    ensures Start(d, p) + d <= Start(d, q)
  {
    if p < q - 1 { Later(d, p, q - 1); }
  }

  lemma NoLater(d: nat, p: nat, q: nat)
    requires p <= q
    ensures Start(d, p) <= Start(d, q)
  {
    if p < q { Later(d, p, q); }
  }

  lemma StartAdd(d: nat, k: nat, n: nat)
    ensures Start(d, k + n) == Start(d, k) + n * d
  {
    StartIs(d, k + n);
    StartIs(d, k);
  }

  // Lane l points at place `at` of block k + l.
  ghost predicate Row(idx: seq<nat>, d: nat, k: nat, at: nat) {
    |idx| == LANES && forall l :: 0 <= l < LANES ==> idx[l] == Start(d, k + l) + at
  }

  lemma RowInside(idx: seq<nat>, d: nat, k: nat, at: nat, len: nat)
    requires Row(idx, d, k, at) && at < d && Start(d, k + LANES) <= len
    ensures Inside(idx, len) && Spread(idx)
  {
    forall l | 0 <= l < LANES ensures idx[l] < len { Later(d, k + l, k + LANES); }
    forall l, m | 0 <= l < m < LANES ensures idx[l] != idx[m] { Later(d, k + l, k + m); }
  }

  lemma FirstRow(d: nat, at: nat)
    ensures Row(Strided(at, d), d, 0, at)
  {
    var idx := Strided(at, d);
    forall l | 0 <= l < LANES ensures idx[l] == Start(d, l) + at { StartIs(d, l); }
  }

  lemma NextRow(idx: seq<nat>, d: nat, k: nat, at: nat)
    requires Row(idx, d, k, at)
    ensures Row(AddIndex(idx, LANES * d), d, k + LANES, at)
  {
    var next := AddIndex(idx, LANES * d);
    forall l | 0 <= l < LANES ensures next[l] == Start(d, k + LANES + l) + at {
      assert k + LANES + l == k + l + LANES;
      StartAdd(d, k + l, LANES);
    }
  }
}
