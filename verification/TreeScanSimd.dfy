/**
 * The tree scan with sixteen blocks at a time (`PrefixSumTreeSIMD`): levels with
 * sixteen blocks or more go through gathers and scatters, narrower ones block
 * by block. The result is that of the plain tree scan.
 */
module TreeScanSimd {
  import opened TreeScan
  import opened Lanes

  // Different places of blocks never meet.
  lemma RowsApart(idx: seq<nat>, jdx: seq<nat>, d: nat, k: nat, at: nat, bt: nat, m: nat)
    requires Row(idx, d, k, at) && Row(jdx, d, k, bt) && at < d && bt < d && at != bt && m < LANES
    ensures forall l :: 0 <= l < LANES ==> idx[l] != jdx[m]
  {
    forall l | 0 <= l < LANES ensures idx[l] != jdx[m] {
      if l < m { Later(d, k + l, k + m); } else if m < l { Later(d, k + m, k + l); }
    }
  }

  // The writes of one block of a sweep; the left half ends at `at`.
  ghost predicate UpWrite(t: seq<real>, t': seq<real>, d: nat, at: nat, i: nat) {
    at < d && i + d <= |t| && t' == t[i + d - 1 := t[i + d - 1] + t[i + at]]
  }

  ghost predicate DownWrite(t: seq<real>, t': seq<real>, d: nat, at: nat, i: nat) {
    at < d && i + d <= |t| && t' == t[i + at := t[i + d - 1]][i + d - 1 := t[i + d - 1] + t[i + at]]
  }

  lemma UpStart(t: seq<real>, t': seq<real>, a: seq<real>, h: nat, k: nat, i: nat)
    requires h > 0 && i == (2 * h) * k && UpWrite(t, t', 2 * h, h - 1, i) && Up(t, a, 2 * h, i)
    ensures Up(t', a, 2 * h, i + 2 * h)
  {
    hide Up;
    UpBlock(t, a, h, k, i);
  }

  lemma DownStart(t: seq<real>, t': seq<real>, a: seq<real>, h: nat, k: nat, i: nat)
    requires h > 0 && i == (2 * h) * k && DownWrite(t, t', 2 * h, h - 1, i) && Down(t, a, 2 * h, i)
    ensures Down(t', a, 2 * h, i + 2 * h)
  {
    hide Down;
    DownBlock(t, a, h, k, i);
  }

  ghost predicate UpStep(st: seq<seq<real>>, d: nat, k: nat, at: nat, m: nat) {
    m + 1 < |st| && UpWrite(st[m], st[m + 1], d, at, Start(d, k + m))
  }

  lemma {:induction false} UpChain(st: seq<seq<real>>, a: seq<real>, d: nat, k: nat, at: nat, n: nat)
    requires d >= 2 && d % 2 == 0 && at == d / 2 - 1 && n < |st| && Up(st[0], a, d, Start(d, k))
    requires forall m :: 0 <= m < n ==> UpStep(st, d, k, at, m)
    ensures Up(st[n], a, d, Start(d, k + n))
  {
    hide Up, UpWrite;
    if n > 0 {
      UpChain(st, a, d, k, at, n - 1);
      assert UpStep(st, d, k, at, n - 1);
      StartIs(d, k + (n - 1));
      UpStart(st[n - 1], st[n], a, d / 2, k + (n - 1), Start(d, k + (n - 1)));
    }
  }

  ghost predicate DownStep(st: seq<seq<real>>, d: nat, k: nat, at: nat, m: nat) {
    m + 1 < |st| && DownWrite(st[m], st[m + 1], d, at, Start(d, k + m))
  }

  lemma {:induction false} DownChain(st: seq<seq<real>>, a: seq<real>, d: nat, k: nat, at: nat, n: nat)
    requires d >= 2 && d % 2 == 0 && at == d / 2 - 1 && n < |st| && Down(st[0], a, d, Start(d, k))
    requires forall m :: 0 <= m < n ==> DownStep(st, d, k, at, m)
    ensures Down(st[n], a, d, Start(d, k + n))
  {
    hide Down, DownWrite;
    if n > 0 {
      DownChain(st, a, d, k, at, n - 1);
      assert DownStep(st, d, k, at, n - 1);
      StartIs(d, k + (n - 1));
      DownStart(st[n - 1], st[n], a, d / 2, k + (n - 1), Start(d, k + (n - 1)));
    }
  }

  // What one more lane of the up-sweep writes.
  lemma UpNext(s: seq<real>, ends: seq<nat>, mids: seq<nat>, d: nat, k: nat, at: nat, n: nat)
    requires Inside(ends, |s|) && Inside(mids, |s|) && n < LANES && Spread(ends)
    requires at < d - 1 && Row(ends, d, k, d - 1) && Row(mids, d, k, at)
    ensures var sum := Add(Gathered(s, ends), Gathered(s, mids));
            UpWrite(Scattered(s, ends, sum, n), Scattered(s, ends, sum, n + 1), d, at, Start(d, k + n))
  {
    var sum := Add(Gathered(s, ends), Gathered(s, mids));
    RowsApart(ends, mids, d, k, d - 1, at, n);
    ScatteredElsewhere(s, ends, sum, n, mids[n]);
    ScatteredElsewhere(s, ends, sum, n, ends[n]);
  }

  // Sixteen blocks of the up-sweep at once are the sixteen one after the other.
  lemma UpLanes(s: seq<real>, ends: seq<nat>, mids: seq<nat>, d: nat, k: nat, at: nat) returns (st: seq<seq<real>>)
    requires Start(d, k + LANES) <= |s|
    requires at < d - 1 && Row(ends, d, k, d - 1) && Row(mids, d, k, at)
    ensures Inside(ends, |s|) && Inside(mids, |s|)
    ensures |st| == LANES + 1 && st[0] == s
    ensures st[LANES] == Scattered(s, ends, Add(Gathered(s, ends), Gathered(s, mids)), LANES)
    ensures forall m :: 0 <= m < LANES ==> UpStep(st, d, k, at, m)
  {
    RowInside(ends, d, k, d - 1, |s|);
    RowInside(mids, d, k, at, |s|);
    var sum := Add(Gathered(s, ends), Gathered(s, mids));
    st := seq(LANES + 1, m requires 0 <= m <= LANES => Scattered(s, ends, sum, m));
    forall m | 0 <= m < LANES ensures UpStep(st, d, k, at, m) {
      UpNext(s, ends, mids, d, k, at, m);
    }
  }

  // A write to a place the scatter leaves alone may come after it.
  lemma {:induction false} WriteAfter(s: seq<real>, idx: seq<nat>, v: seq<real>, n: nat, p: nat, x: real)
    requires Inside(idx, |s|) && |v| == LANES && n <= LANES && p < |s|
    requires forall l :: 0 <= l < n ==> idx[l] != p
    ensures Scattered(s[p := x], idx, v, n) == Scattered(s, idx, v, n)[p := x]
  {
    if n > 0 { WriteAfter(s, idx, v, n - 1, p, x); }
  }

  // The two scatters of the descent.
  ghost function Sunk(s: seq<real>, ends: seq<nat>, mids: seq<nat>, n: nat): (r: seq<real>)
    requires Inside(ends, |s|) && Inside(mids, |s|) && n <= LANES
    ensures |r| == |s|
  {
    Scattered(Scattered(s, mids, Gathered(s, ends), n), ends, Add(Gathered(s, ends), Gathered(s, mids)), n)
  }

  lemma SunkMore(s: seq<real>, ends: seq<nat>, mids: seq<nat>, d: nat, k: nat, at: nat, n: nat)
    requires Inside(ends, |s|) && Inside(mids, |s|) && n < LANES
    requires at < d - 1 && Row(ends, d, k, d - 1) && Row(mids, d, k, at)
    ensures Sunk(s, ends, mids, n + 1) == Sunk(s, ends, mids, n)[mids[n] := s[ends[n]]][ends[n] := s[ends[n]] + s[mids[n]]]
  {
    var e, sum := Gathered(s, ends), Add(Gathered(s, ends), Gathered(s, mids));
    RowsApart(ends, mids, d, k, d - 1, at, n);
    WriteAfter(Scattered(s, mids, e, n), ends, sum, n, mids[n], e[n]);
  }

  // Blocks not yet reached are as they were.
  lemma SunkBeyond(s: seq<real>, ends: seq<nat>, mids: seq<nat>, d: nat, k: nat, at: nat, n: nat)
    requires Inside(ends, |s|) && Inside(mids, |s|) && n < LANES && Spread(ends) && Spread(mids)
    requires at < d - 1 && Row(ends, d, k, d - 1) && Row(mids, d, k, at)
    ensures Sunk(s, ends, mids, n)[ends[n]] == s[ends[n]] && Sunk(s, ends, mids, n)[mids[n]] == s[mids[n]]
  {
    var e, sum := Gathered(s, ends), Add(Gathered(s, ends), Gathered(s, mids));
    var t := Scattered(s, mids, e, n);
    RowsApart(ends, mids, d, k, d - 1, at, n);
    RowsApart(mids, ends, d, k, at, d - 1, n);
    ScatteredElsewhere(s, mids, e, n, ends[n]);
    ScatteredElsewhere(s, mids, e, n, mids[n]);
    ScatteredElsewhere(t, ends, sum, n, ends[n]);
    ScatteredElsewhere(t, ends, sum, n, mids[n]);
  }

  lemma SunkNext(s: seq<real>, ends: seq<nat>, mids: seq<nat>, d: nat, k: nat, at: nat, n: nat)
    requires Inside(ends, |s|) && Inside(mids, |s|) && n < LANES && Spread(ends) && Spread(mids)
    requires at < d - 1 && Row(ends, d, k, d - 1) && Row(mids, d, k, at)
    ensures DownWrite(Sunk(s, ends, mids, n), Sunk(s, ends, mids, n + 1), d, at, Start(d, k + n))
  {
    SunkMore(s, ends, mids, d, k, at, n);
    SunkBeyond(s, ends, mids, d, k, at, n);
  }

  lemma DownLanes(s: seq<real>, ends: seq<nat>, mids: seq<nat>, d: nat, k: nat, at: nat) returns (st: seq<seq<real>>)
    requires Start(d, k + LANES) <= |s|
    requires at < d - 1 && Row(ends, d, k, d - 1) && Row(mids, d, k, at)
    ensures Inside(ends, |s|) && Inside(mids, |s|)
    ensures |st| == LANES + 1 && st[0] == s && st[LANES] == Sunk(s, ends, mids, LANES)
    ensures forall m :: 0 <= m < LANES ==> DownStep(st, d, k, at, m)
  {
    RowInside(ends, d, k, d - 1, |s|);
    RowInside(mids, d, k, at, |s|);
    st := seq(LANES + 1, m requires 0 <= m <= LANES => Sunk(s, ends, mids, m));
    forall m | 0 <= m < LANES ensures DownStep(st, d, k, at, m) {
      SunkNext(s, ends, mids, d, k, at, m);
    }
  }

  // ---------------------------------------------------------------------
  // The sweeps.
  // ---------------------------------------------------------------------

  method AddLanes(x: array<real>, ends: seq<nat>, mids: seq<nat>)
    requires Inside(ends, x.Length) && Inside(mids, x.Length)
    modifies x
    ensures x[..] == old(Scattered(x[..], ends, Add(Gathered(x[..], ends), Gathered(x[..], mids)), LANES))
  {
    assert x[..] == x[0..0 + x.Length];
    var e1 := Gather(x, 0, x.Length, ends);
    var e2 := Gather(x, 0, x.Length, mids);
    Scatter(x, 0, x.Length, ends, Add(e1, e2));
    assert x[..] == x[0..0 + x.Length];
  }

  method SinkLanes(x: array<real>, ends: seq<nat>, mids: seq<nat>)
    requires Inside(ends, x.Length) && Inside(mids, x.Length)
    modifies x
    ensures x[..] == old(Sunk(x[..], ends, mids, LANES))
  {
    assert x[..] == x[0..0 + x.Length];
    var e1 := Gather(x, 0, x.Length, ends);
    var e2 := Gather(x, 0, x.Length, mids);
    Scatter(x, 0, x.Length, mids, e1);
    Scatter(x, 0, x.Length, ends, Add(e1, e2));
    assert x[..] == x[0..0 + x.Length];
  }

  lemma UpSixteen(s: seq<real>, a: seq<real>, d: nat, ends: seq<nat>, mids: seq<nat>, k: nat)
    requires d >= 2 && d % 2 == 0 && Start(d, k + LANES) <= |s|
    requires Row(ends, d, k, d - 1) && Row(mids, d, k, d / 2 - 1)
    requires Up(s, a, d, Start(d, k))
    ensures Inside(ends, |s|) && Inside(mids, |s|)
    ensures Up(Scattered(s, ends, Add(Gathered(s, ends), Gathered(s, mids)), LANES), a, d, Start(d, k + LANES))
  {
    var st := UpLanes(s, ends, mids, d, k, d / 2 - 1);
    UpChain(st, a, d, k, d / 2 - 1, LANES);
  }

  method UpGroup(x: array<real>, d: nat, ends: seq<nat>, mids: seq<nat>, ghost a: seq<real>, ghost k: nat)
    returns (ends': seq<nat>, mids': seq<nat>)
    requires d >= 2 && d % 2 == 0 && Start(d, k + LANES) <= x.Length
    requires Row(ends, d, k, d - 1) && Row(mids, d, k, d / 2 - 1)
    requires Up(x[..], a, d, Start(d, k))
    modifies x
    ensures Up(x[..], a, d, Start(d, k + LANES))
    ensures Row(ends', d, k + LANES, d - 1) && Row(mids', d, k + LANES, d / 2 - 1)
  {
    UpSixteen(x[..], a, d, ends, mids, k);
    AddLanes(x, ends, mids);
    NextRow(ends, d, k, d - 1);
    NextRow(mids, d, k, d / 2 - 1);
    ends', mids' := AddIndex(ends, LANES * d), AddIndex(mids, LANES * d);
  }

  lemma DownSixteen(s: seq<real>, a: seq<real>, d: nat, ends: seq<nat>, mids: seq<nat>, k: nat)
    requires d >= 2 && d % 2 == 0 && Start(d, k + LANES) <= |s|
    requires Row(ends, d, k, d - 1) && Row(mids, d, k, d / 2 - 1)
    requires Down(s, a, d, Start(d, k))
    ensures Inside(ends, |s|) && Inside(mids, |s|)
    ensures Down(Sunk(s, ends, mids, LANES), a, d, Start(d, k + LANES))
  {
    var st := DownLanes(s, ends, mids, d, k, d / 2 - 1);
    DownChain(st, a, d, k, d / 2 - 1, LANES);
  }

  method DownGroup(x: array<real>, d: nat, ends: seq<nat>, mids: seq<nat>, ghost a: seq<real>, ghost k: nat)
    returns (ends': seq<nat>, mids': seq<nat>)
    requires d >= 2 && d % 2 == 0 && Start(d, k + LANES) <= x.Length
    requires Row(ends, d, k, d - 1) && Row(mids, d, k, d / 2 - 1)
    requires Down(x[..], a, d, Start(d, k))
    modifies x
    ensures Down(x[..], a, d, Start(d, k + LANES))
    ensures Row(ends', d, k + LANES, d - 1) && Row(mids', d, k + LANES, d / 2 - 1)
  {
    DownSixteen(x[..], a, d, ends, mids, k);
    SinkLanes(x, ends, mids);
    NextRow(ends, d, k, d - 1);
    NextRow(mids, d, k, d / 2 - 1);
    ends', mids' := AddIndex(ends, LANES * d), AddIndex(mids, LANES * d);
  }

  // Sixteen or more blocks of a power of two come in groups of sixteen.
  lemma Groups(blocks: nat)
    requires PowerOfTwo(blocks) && blocks >= LANES
    ensures blocks % LANES == 0
  {
    hide PowerOfTwo;
    HalfPower(blocks);
    HalfPower(blocks / 2);
    HalfPower(blocks / 4);
    HalfPower(blocks / 8);
  }

  lemma BlockCount(len: nat, d: nat, blocks: nat)
    requires d > 0 && len == d * blocks
    ensures len / d == blocks
  {
    var q := len / d;
    RemainderIs(len, d, blocks, 0);
    StartIs(d, q);
    StartIs(d, blocks);
    if q < blocks { Later(d, q, blocks); }
    if blocks < q { Later(d, blocks, q); }
  }

  // The groups of one level. The index vectors move on by sixteen blocks.
  method UpGroups(x: array<real>, d: nat, num: nat, ghost a: seq<real>)
    requires d >= 2 && d % 2 == 0 && num % LANES == 0 && x.Length == Start(d, num)
    requires Up(x[..], a, d, 0)
    modifies x
    ensures Up(x[..], a, d, x.Length)
  {
    var ends, mids := Strided(d - 1, d), Strided(d / 2 - 1, d);
    FirstRow(d, d - 1);
    FirstRow(d, d / 2 - 1);
    var offset := 0;
    ghost var g, groups := 0, num / LANES;
    while offset < num
      invariant 0 <= g <= groups && offset == LANES * g && num == LANES * groups
      invariant Row(ends, d, offset, d - 1) && Row(mids, d, offset, d / 2 - 1)
      invariant Up(x[..], a, d, Start(d, offset))
    {
      NoLater(d, offset + LANES, num);
      ends, mids := UpGroup(x, d, ends, mids, a, offset);
      offset, g := offset + LANES, g + 1;
    }
  }

  method UpLevelSimd(x: array<real>, d: nat, ghost a: seq<real>, ghost blocks: nat)
    requires d >= 2 && d % 2 == 0 && x.Length == d * blocks && PowerOfTwo(blocks)
    requires Up(x[..], a, d, 0)
    modifies x
    ensures Up(x[..], a, d, x.Length)
  {
    BlockCount(x.Length, d, blocks);
    var num := x.Length / d;
    if num < LANES {
      assert x[..] == x[0..0 + x.Length];
      UpLevel(x, 0, x.Length, d, a, blocks);
      assert x[..] == x[0..0 + x.Length];
    } else {
      Groups(blocks);
      StartIs(d, blocks);
      UpGroups(x, d, num, a);
    }
  }

  // The groups of one level. The index vectors move on by sixteen blocks.
  method DownGroups(x: array<real>, d: nat, num: nat, ghost a: seq<real>)
    requires d >= 2 && d % 2 == 0 && num % LANES == 0 && x.Length == Start(d, num)
    requires Down(x[..], a, d, 0)
    modifies x
    ensures Down(x[..], a, d, x.Length)
  {
    var ends, mids := Strided(d - 1, d), Strided(d / 2 - 1, d);
    FirstRow(d, d - 1);
    FirstRow(d, d / 2 - 1);
    var offset := 0;
    ghost var g, groups := 0, num / LANES;
    while offset < num
      invariant 0 <= g <= groups && offset == LANES * g && num == LANES * groups
      invariant Row(ends, d, offset, d - 1) && Row(mids, d, offset, d / 2 - 1)
      invariant Down(x[..], a, d, Start(d, offset))
    {
      NoLater(d, offset + LANES, num);
      ends, mids := DownGroup(x, d, ends, mids, a, offset);
      offset, g := offset + LANES, g + 1;
    }
  }

  method DownLevelSimd(x: array<real>, d: nat, ghost a: seq<real>, ghost blocks: nat)
    requires d >= 2 && d % 2 == 0 && x.Length == d * blocks && PowerOfTwo(blocks)
    requires Down(x[..], a, d, 0)
    modifies x
    ensures Down(x[..], a, d, x.Length)
  {
    BlockCount(x.Length, d, blocks);
    var num := x.Length / d;
    if num < LANES {
      assert x[..] == x[0..0 + x.Length];
      DownLevel(x, 0, x.Length, d, a, blocks);
      assert x[..] == x[0..0 + x.Length];
    } else {
      Groups(blocks);
      StartIs(d, blocks);
      DownGroups(x, d, num, a);
    }
  }

  // The whole scan; a length of zero is not a power of two.
  method PrefixSumTreeSIMD(x: array<real>)
    requires PowerOfTwo(x.Length)
    modifies x
    ensures x[..] == PrefixSums(old(x[..]))
  {
    ghost var a := x[..];
    UpSweepSimd(x);
    ghost var s := x[..];
    x[x.Length - 1] := 0.0;
    assert x[..] == s[x.Length - 1 := 0.0];
    if x.Length > 1 {
      Turn(s, a);
      DownSweepSimd(x, a);
    } else {
      assert x[..] == PrefixSums(a);
    }
  }

  method UpSweepSimd(x: array<real>)
    requires PowerOfTwo(x.Length)
    modifies x
    ensures x.Length >= 2 ==> Up(x[..], old(x[..]), x.Length, x.Length)
  {
    var len := x.Length;
    ghost var a := x[..];
    UntouchedIsSwept(a);
    var d := 2;
    ghost var blocks := if len == 1 then 0 else len / 2;
    while d <= len
      invariant d >= 2 && d % 2 == 0
      invariant if d <= len then len == d * blocks && PowerOfTwo(blocks) else d == 2 * len
      invariant Up(x[..], a, d, 0)
      decreases len - d
    {
      UpLevelSimd(x, d, a, blocks);
      NextLevelUp(x[..], a, d);
      LevelUp(len, d, blocks);
      d, blocks := 2 * d, blocks / 2;
    }
    if len >= 2 { TopLevel(x[..], a, len); }
  }

  lemma TwiceAPower(n: nat)
    requires PowerOfTwo(n)
    ensures PowerOfTwo(2 * n)
  {
    assert (2 * n) / 2 == n;
  }

  method DownSweepSimd(x: array<real>, ghost a: seq<real>)
    requires PowerOfTwo(x.Length) && x.Length >= 2
    requires Down(x[..], a, x.Length, 0)
    modifies x
    ensures x[..] == PrefixSums(a)
  {
    var len := x.Length;
    var d := len;
    ghost var blocks := 1;
    while d >= 2
      invariant d >= 1 && PowerOfTwo(d) && len == d * blocks && |a| == len && PowerOfTwo(blocks)
      invariant if d >= 2 then Down(x[..], a, d, 0) else Down(x[..], a, 2, len)
    {
      LevelDown(len, d, blocks);
      DownLevelSimd(x, d, a, blocks);
      if d >= 4 {
        HalfPower(d / 2);
        NextLevelDown(x[..], a, d / 2);
      }
      TwiceAPower(blocks);
      d, blocks := d / 2, 2 * blocks;
    }
    Landed(x[..], a);
  }
}
