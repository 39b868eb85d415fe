/**
 * The work-efficient tree scan (`PrefixSumTree`), its gather/scatter form
 * (`PrefixSumTreeSIMD`) and the chunked driver that borrows the last element of
 * the chunk before (`PrefixSumTreePartitioned`), over exact real arithmetic.
 */
module TreeScan {
  // The sum of the first n elements.
  function Prefix(a: seq<real>, n: nat): real
    requires n <= |a|
  {
    if n == 0 then 0.0 else Prefix(a, n - 1) + a[n - 1]
  }

  // The exclusive prefix sums: each element is the sum of all before it.
  function PrefixSums(a: seq<real>): (r: seq<real>)
    ensures |r| == |a| && forall j :: 0 <= j < |a| ==> r[j] == Prefix(a, j)
  {
    seq(|a|, j requires 0 <= j < |a| => Prefix(a, j))
  }

  predicate PowerOfTwo(n: nat)
  {
    n == 1 || (n > 0 && n % 2 == 0 && PowerOfTwo(n / 2))
  }

  // The largest power of two up to d that divides m.
  function Span(m: nat, d: nat): (s: nat)
    requires d > 0
    ensures 1 <= s <= d
    ensures m > 0 ==> s <= m
  {
    if d == 1 then 1
    else if m % d == 0 then (if m == 0 then d else (assert m >= d; d))
    else Span(m, d / 2)
  }

  // Element j after the up-sweep has reached width d: the sum of a block that
  // ends at j.
  function Swept(a: seq<real>, j: nat, d: nat): real
    requires j < |a| && d > 0
  {
    Prefix(a, j + 1) - Prefix(a, j + 1 - Span(j + 1, d))
  }

  // Up-sweep of width d, done for the blocks below i.
  ghost predicate Up(s: seq<real>, a: seq<real>, d: nat, i: nat)
    requires d >= 2
  {
    |s| == |a| && forall j :: 0 <= j < |s| ==> s[j] == Swept(a, j, if j < i then d else d / 2)
  }

  // Element j before the down-sweep of width d: at the end of a block, the sum
  // of everything before the block; elsewhere still what the up-sweep left.
  function Sinking(a: seq<real>, j: nat, d: nat): real
    requires j < |a| && d > 0
  {
    if (j + 1) % d == 0 then (assert j + 1 >= d; Prefix(a, j + 1 - d)) else Swept(a, j, d)
  }

  ghost predicate Down(s: seq<real>, a: seq<real>, d: nat, i: nat)
    requires d >= 2
  {
    |s| == |a| && forall j :: 0 <= j < |s| ==> s[j] == Sinking(a, j, if j < i then d / 2 else d)
  }

  // ---------------------------------------------------------------------
  // Arithmetic of blocks: block k of width d covers d*k up to d*k + d.
  // ---------------------------------------------------------------------

  lemma RemainderIs(x: int, d: int, k: int, r: int)
    requires 0 <= r < d && x == d * k + r
    ensures x % d == r
  {
    var q := x / d;
    assert d * (q - k) == r - x % d by {
      assert d * q + x % d == x;
      assert d * (q - k) == d * q - d * k;
    }
    assert q - k >= 1 ==> d * (q - k) >= d;
    assert q - k <= -1 ==> d * (q - k) <= -d;
  }

  lemma SpanAtBlockEnd(m: nat, d: nat, k: nat)
    requires d > 0 && m == d * k + d
    ensures m % d == 0 && Span(m, d) == d
  {
    assert m == d * (k + 1) + 0;
    RemainderIs(m, d, k + 1, 0);
  }

  lemma SpanInsideBlock(m: nat, d: nat, k: nat)
    requires d >= 2 && d * k < m < d * k + d
    ensures m % d != 0 && Span(m, d) == Span(m, d / 2)
  {
    RemainderIs(m, d, k, m - d * k);
  }

  // The two halves of block k of width d = 2h are blocks 2k and 2k + 1 of
  // width h.
  lemma Halves(h: nat, k: nat)
    ensures h * (2 * k) == (2 * h) * k && h * (2 * k + 1) == (2 * h) * k + h
  {
  }

  // ---------------------------------------------------------------------
  // One block of a sweep.
  // ---------------------------------------------------------------------

  // An element the block leaves alone keeps its meaning.
  lemma UpElsewhere(a: seq<real>, h: nat, k: nat, i: nat, j: nat)
    requires h > 0 && i == (2 * h) * k && j < |a| && j != i + 2 * h - 1
    ensures Swept(a, j, if j < i then 2 * h else h) == Swept(a, j, if j < i + 2 * h then 2 * h else h)
  {
    if i <= j < i + 2 * h - 1 { SpanInsideBlock(j + 1, 2 * h, k); }
  }

  lemma UpEnds(a: seq<real>, h: nat, k: nat, i: nat)
    requires h > 0 && i == (2 * h) * k && i + 2 * h <= |a|
    ensures Swept(a, i + 2 * h - 1, 2 * h) == Swept(a, i + 2 * h - 1, h) + Swept(a, i + h - 1, h)
  {
    Halves(h, k);
    var d := 2 * h;
    SpanAtBlockEnd(i + d, d, k);
    SpanAtBlockEnd(i + d, h, 2 * k + 1);
    SpanAtBlockEnd(i + h, h, 2 * k);
  }

  lemma UpAt(s: seq<real>, a: seq<real>, h: nat, k: nat, i: nat, j: nat)
    requires h > 0 && i == (2 * h) * k && i + 2 * h <= |s| == |a| && j < |s|
    requires && s[j] == Swept(a, j, if j < i then 2 * h else h)
             && s[i + 2 * h - 1] == Swept(a, i + 2 * h - 1, h) && s[i + h - 1] == Swept(a, i + h - 1, h)
    ensures s[i + 2 * h - 1 := s[i + 2 * h - 1] + s[i + h - 1]][j] == Swept(a, j, if j < i + 2 * h then 2 * h else h)
  {
    if j == i + 2 * h - 1 { UpEnds(a, h, k, i); } else { UpElsewhere(a, h, k, i, j); }
  }

  lemma UpBlock(s: seq<real>, a: seq<real>, h: nat, k: nat, i: nat)
    requires h > 0 && i == (2 * h) * k && i + 2 * h <= |s|
    requires Up(s, a, 2 * h, i)
    ensures Up(s[i + 2 * h - 1 := s[i + 2 * h - 1] + s[i + h - 1]], a, 2 * h, i + 2 * h)
  {
    hide Swept;
    var d := 2 * h;
    var s' := s[i + d - 1 := s[i + d - 1] + s[i + h - 1]];
    forall j | 0 <= j < |s'| ensures s'[j] == Swept(a, j, if j < i + d then d else h) {
      assert s[j] == Swept(a, j, if j < i then d else h);
      UpAt(s, a, h, k, i, j);
    }
  }

  lemma DownElsewhere(a: seq<real>, h: nat, k: nat, i: nat, j: nat)
    requires h > 0 && i == (2 * h) * k && j < |a| && j != i + 2 * h - 1 && j != i + h - 1
    ensures Sinking(a, j, if j < i then h else 2 * h) == Sinking(a, j, if j < i + 2 * h then h else 2 * h)
  {
    hide Sinking, Span;
    Halves(h, k);
    if i <= j < i + 2 * h - 1 {
      SpanInsideBlock(j + 1, 2 * h, k);
      InsideBlock(j + 1, h, if j + 1 < i + h then 2 * k else 2 * k + 1);
      SinkingInside(a, j, h);
    }
  }

  lemma SinkingInside(a: seq<real>, j: nat, h: nat)
    requires h > 0 && j < |a| && (j + 1) % h != 0 && (j + 1) % (2 * h) != 0 && Span(j + 1, 2 * h) == Span(j + 1, h)
    ensures Sinking(a, j, h) == Sinking(a, j, 2 * h)
  {
  }

  lemma InsideBlock(m: nat, d: nat, k: nat)
    requires d * k < m < d * k + d
    ensures m % d != 0
  {
    RemainderIs(m, d, k, m - d * k);
  }

  lemma DownEnds(a: seq<real>, h: nat, k: nat, i: nat)
    requires h > 0 && i == (2 * h) * k && i + 2 * h <= |a|
    ensures && Sinking(a, i + h - 1, h) == Sinking(a, i + 2 * h - 1, 2 * h)
            && Sinking(a, i + 2 * h - 1, h) == Sinking(a, i + 2 * h - 1, 2 * h) + Sinking(a, i + h - 1, 2 * h)
  {
    Halves(h, k);
    var d := 2 * h;
    SpanAtBlockEnd(i + d, d, k);
    SpanAtBlockEnd(i + d, h, 2 * k + 1);
    SpanAtBlockEnd(i + h, h, 2 * k);
    SpanInsideBlock(i + h, d, k);
  }

  // One element, after the block.
  lemma DownAt(s: seq<real>, a: seq<real>, h: nat, k: nat, i: nat, j: nat)
    requires h > 0 && i == (2 * h) * k && i + 2 * h <= |s| == |a| && j < |s|
    requires && s[j] == Sinking(a, j, if j < i then h else 2 * h)
             && s[i + 2 * h - 1] == Sinking(a, i + 2 * h - 1, 2 * h) && s[i + h - 1] == Sinking(a, i + h - 1, 2 * h)
    ensures s[i + h - 1 := s[i + 2 * h - 1]][i + 2 * h - 1 := s[i + 2 * h - 1] + s[i + h - 1]][j]
         == Sinking(a, j, if j < i + 2 * h then h else 2 * h)
  {
    hide Sinking;
    if j == i + 2 * h - 1 || j == i + h - 1 {
      DownEnds(a, h, k, i);
    } else {
      DownElsewhere(a, h, k, i, j);
    }
  }

  lemma DownBlock(s: seq<real>, a: seq<real>, h: nat, k: nat, i: nat)
    requires h > 0 && i == (2 * h) * k && i + 2 * h <= |s|
    requires Down(s, a, 2 * h, i)
    ensures var t := s[i + h - 1];
            Down(s[i + h - 1 := s[i + 2 * h - 1]][i + 2 * h - 1 := s[i + 2 * h - 1] + t], a, 2 * h, i + 2 * h)
  {
    hide Sinking;
    var d := 2 * h;
    var s' := s[i + h - 1 := s[i + d - 1]][i + d - 1 := s[i + d - 1] + s[i + h - 1]];
    forall j | 0 <= j < |s'| ensures s'[j] == Sinking(a, j, if j < i + d then h else d) {
      assert s[j] == Sinking(a, j, if j < i then h else d);
      DownAt(s, a, h, k, i, j);
    }
  }

  // ---------------------------------------------------------------------
  // The scan.
  // ---------------------------------------------------------------------

  lemma UntouchedIsSwept(a: seq<real>)
    ensures Up(a, a, 2, 0)
  {
  }

  // One full level leaves the next one to do.
  lemma NextLevelUp(s: seq<real>, a: seq<real>, d: nat)
    requires d >= 2 && Up(s, a, d, |a|)
    ensures Up(s, a, 2 * d, 0)
  {
  }

  lemma TopLevel(s: seq<real>, a: seq<real>, d: nat)
    requires d >= 2 && Up(s, a, 2 * d, 0)
    ensures Up(s, a, d, |a|)
  {
    assert (2 * d) / 2 == d;
  }

  lemma NextLevelDown(s: seq<real>, a: seq<real>, h: nat)
    requires h >= 2 && h % 2 == 0 && Down(s, a, 2 * h, |a|)
    ensures Down(s, a, h, 0)
  {
  }

  // Putting zero at the end turns the last sum into the start of the descent.
  lemma Turn(s: seq<real>, a: seq<real>)
    requires |a| >= 2 && Up(s, a, |a|, |a|)
    ensures Down(s[|a| - 1 := 0.0], a, |a|, 0)
  {
    var n := |a|;
    forall j | 0 <= j < n ensures s[n - 1 := 0.0][j] == Sinking(a, j, n) {
      assert s[j] == Swept(a, j, n);
      if j == n - 1 { assert n % n == 0; } else { InsideBlock(j + 1, n, 0); }
    }
  }

  lemma Landed(s: seq<real>, a: seq<real>)
    requires Down(s, a, 2, |a|)
    ensures s == PrefixSums(a)
  {
    forall j | 0 <= j < |s| ensures s[j] == Prefix(a, j) {
      assert s[j] == Sinking(a, j, 1);
    }
  }

  // One assignment, seen from the range x[lo..lo + len].
  method SetElement(x: array<real>, lo: nat, len: nat, j: nat, v: real)
    requires lo + len <= x.Length && j < len
    modifies x
    ensures x[lo..lo + len] == old(x[lo..lo + len])[j := v]
    ensures x[..lo] == old(x[..lo]) && x[lo + len..] == old(x[lo + len..])
  {
    x[lo + j] := v;
  }

  // One block of the up-sweep, on x[lo..lo + len].
  method UpOne(x: array<real>, lo: nat, len: nat, d: nat, i: nat, ghost a: seq<real>, ghost k: nat)
    requires lo + len <= x.Length && d >= 2 && d % 2 == 0 && i == d * k && i + d <= len
    requires Up(x[lo..lo + len], a, d, i)
    modifies x
    ensures Up(x[lo..lo + len], a, d, i + d)
    ensures x[..lo] == old(x[..lo]) && x[lo + len..] == old(x[lo + len..])
  {
    hide Up;
    ghost var s, h := x[lo..lo + len], d / 2;
    assert d == 2 * h;
    UpBlock(s, a, h, k, i);
    var left, right := x[lo + i + d / 2 - 1], x[lo + i + d - 1];
    assert left == s[i + d / 2 - 1] && right == s[i + d - 1];
    SetElement(x, lo, len, i + d - 1, right + left);
  }

  // Every block of one level.
  method UpLevel(x: array<real>, lo: nat, len: nat, d: nat, ghost a: seq<real>, ghost blocks: nat)
    requires lo + len <= x.Length && d >= 2 && d % 2 == 0 && len == d * blocks
    requires Up(x[lo..lo + len], a, d, 0)
    modifies x
    ensures Up(x[lo..lo + len], a, d, len)
    ensures x[..lo] == old(x[..lo]) && x[lo + len..] == old(x[lo + len..])
  {
    var i := 0;
    ghost var k := 0;
    while i < len
      invariant 0 <= k <= blocks && i == d * k <= len
      invariant Up(x[lo..lo + len], a, d, i)
      invariant x[..lo] == old(x[..lo]) && x[lo + len..] == old(x[lo + len..])
      decreases blocks - k
    {
      BlockFits(d, k, blocks);
      UpOne(x, lo, len, d, i, a, k);
      i, k := i + d, k + 1;
    }
  }

  lemma BlockFits(d: nat, k: nat, blocks: nat)
    requires d * k < d * blocks
    ensures k < blocks && d * (k + 1) == d * k + d <= d * blocks
  {
    assert k >= blocks ==> d * (k - blocks) >= 0;
    assert d * blocks == d * k + d * (blocks - k);
    assert blocks - k >= 1 ==> d * (blocks - k) >= d;
  }

  // One block of the descent: the left sum goes up, the total comes down.
  method DownOne(x: array<real>, lo: nat, len: nat, d: nat, i: nat, ghost a: seq<real>, ghost k: nat)
    requires lo + len <= x.Length && d >= 2 && d % 2 == 0 && i == d * k && i + d <= len
    requires Down(x[lo..lo + len], a, d, i)
    modifies x
    ensures Down(x[lo..lo + len], a, d, i + d)
    ensures x[..lo] == old(x[..lo]) && x[lo + len..] == old(x[lo + len..])
  {
    hide Down;
    ghost var s, h := x[lo..lo + len], d / 2;
    assert d == 2 * h;
    DownBlock(s, a, h, k, i);
    var t, total := x[lo + i + d / 2 - 1], x[lo + i + d - 1];
    assert t == s[i + d / 2 - 1] && total == s[i + d - 1];
    SetElement(x, lo, len, i + d / 2 - 1, total);
    SetElement(x, lo, len, i + d - 1, total + t);
  }

  method DownLevel(x: array<real>, lo: nat, len: nat, d: nat, ghost a: seq<real>, ghost blocks: nat)
    requires lo + len <= x.Length && d >= 2 && d % 2 == 0 && len == d * blocks
    requires Down(x[lo..lo + len], a, d, 0)
    modifies x
    ensures Down(x[lo..lo + len], a, d, len)
    ensures x[..lo] == old(x[..lo]) && x[lo + len..] == old(x[lo + len..])
  {
    var i := 0;
    ghost var k := 0;
    while i < len
      invariant 0 <= k <= blocks && i == d * k <= len
      invariant Down(x[lo..lo + len], a, d, i)
      invariant x[..lo] == old(x[..lo]) && x[lo + len..] == old(x[lo + len..])
      decreases blocks - k
    {
      BlockFits(d, k, blocks);
      DownOne(x, lo, len, d, i, a, k);
      i, k := i + d, k + 1;
    }
  }

  // In place on x[lo..lo + len], for a power of two: every element is replaced
  // by the sum of all before it. Nothing else is touched.
  method PrefixSumTree(x: array<real>, lo: nat, len: nat)
    requires lo + len <= x.Length && PowerOfTwo(len)
    modifies x
    ensures x[lo..lo + len] == PrefixSums(old(x[lo..lo + len]))
    ensures x[..lo] == old(x[..lo]) && x[lo + len..] == old(x[lo + len..])
  {
    ghost var a := x[lo..lo + len];
    UpSweep(x, lo, len);
    ghost var s := x[lo..lo + len];
    SetElement(x, lo, len, len - 1, 0.0);
    if len > 1 {
      Turn(s, a);
      DownSweep(x, lo, len, a);
    } else {
      assert s[0 := 0.0] == PrefixSums(a);
    }
  }

  method UpSweep(x: array<real>, lo: nat, len: nat)
    requires lo + len <= x.Length && PowerOfTwo(len)
    modifies x
    ensures len >= 2 ==> Up(x[lo..lo + len], old(x[lo..lo + len]), len, len)
    ensures x[..lo] == old(x[..lo]) && x[lo + len..] == old(x[lo + len..])
  {
    ghost var a := x[lo..lo + len];
    UntouchedIsSwept(a);
    var d := 2;
    ghost var blocks := if len == 1 then 0 else len / 2;
    while d <= len
      invariant d >= 2 && d % 2 == 0
      invariant if d <= len then len == d * blocks && PowerOfTwo(blocks) else d == 2 * len
      invariant Up(x[lo..lo + len], a, d, 0)
      invariant x[..lo] == old(x[..lo]) && x[lo + len..] == old(x[lo + len..])
      decreases len - d
    {
      UpLevel(x, lo, len, d, a, blocks);
      NextLevelUp(x[lo..lo + len], a, d);
      LevelUp(len, d, blocks);
      d, blocks := 2 * d, blocks / 2;
    }
    if len >= 2 { TopLevel(x[lo..lo + len], a, len); }
  }

  lemma HalfPower(n: nat)
    requires PowerOfTwo(n) && n > 1
    ensures n % 2 == 0 && PowerOfTwo(n / 2)
  {
  }

  lemma DoubleWidth(d: nat, h: nat)
    requires h >= 1
    ensures d * (2 * h) == (2 * d) * h >= 2 * d
  {
  }

  lemma LevelUp(len: nat, d: nat, blocks: nat)
    requires PowerOfTwo(blocks) && d > 0 && len == d * blocks
    ensures if 2 * d <= len then len == (2 * d) * (blocks / 2) && PowerOfTwo(blocks / 2) else d == len
  {
    if blocks > 1 {
      HalfPower(blocks);
      DoubleWidth(d, blocks / 2);
    }
  }

  lemma LevelDown(len: nat, d: nat, blocks: nat)
    requires PowerOfTwo(d) && d >= 2 && len == d * blocks
    ensures d % 2 == 0 && PowerOfTwo(d / 2) && len == (d / 2) * (2 * blocks)
  {
    HalfPower(d);
    assert d == (d / 2) * 2;
  }

  method DownSweep(x: array<real>, lo: nat, len: nat, ghost a: seq<real>)
    requires lo + len <= x.Length && PowerOfTwo(len) && len >= 2
    requires Down(x[lo..lo + len], a, len, 0)
    modifies x
    ensures x[lo..lo + len] == PrefixSums(a)
    ensures x[..lo] == old(x[..lo]) && x[lo + len..] == old(x[lo + len..])
  {
    var d := len;
    ghost var blocks := 1;
    while d >= 2
      invariant d >= 1 && PowerOfTwo(d) && len == d * blocks && |a| == len
      invariant if d >= 2 then Down(x[lo..lo + len], a, d, 0) else Down(x[lo..lo + len], a, 2, len)
      invariant x[..lo] == old(x[..lo]) && x[lo + len..] == old(x[lo + len..])
    {
      LevelDown(len, d, blocks);
      DownLevel(x, lo, len, d, a, blocks);
      if d >= 4 {
        HalfPower(d / 2);
        NextLevelDown(x[lo..lo + len], a, d / 2);
      }
      d, blocks := d / 2, 2 * blocks;
    }
    Landed(x[lo..lo + len], a);
  }

  // ---------------------------------------------------------------------
  // The chunked driver.
  // ---------------------------------------------------------------------

  // A chunk scanned with the total so far in front of it.
  lemma {:induction false} Borrowed(a: seq<real>, b: seq<real>, base: nat, k: nat)
    requires 0 < base && 1 <= k <= |b| && base - 1 + k <= |a|
    requires b[0] == Prefix(a, base) && forall i :: 1 <= i < |b| && base - 1 + i < |a| ==> b[i] == a[base - 1 + i]
    ensures Prefix(b, k) == Prefix(a, base - 1 + k)
  {
    if k == 1 {
      assert Prefix(b, 0) == 0.0;
    } else {
      Borrowed(a, b, base, k - 1);
    }
  }

  // What the array holds with the chunks below base done.
  ghost predicate Chunked(x: seq<real>, a: seq<real>, base: nat, chunkLen: nat, last: real)
    requires base <= |a|
  {
    && |x| == |a|
    && (forall j :: 0 <= j < base ==> x[j] == if chunkLen >= 2 then Prefix(a, j) else 0.0)
    && (forall j :: base <= j < |a| ==> x[j] == a[j])
    && (base > 0 ==> last == a[base - 1])
  }

  // The chunk at base, shifted down by one so that it starts with the last
  // element of the chunk before.
  method NextChunk(x: array<real>, base: nat, chunkLen: nat, last: real, ghost a: seq<real>) returns (last': real)
    requires PowerOfTwo(chunkLen) && 0 < base && base + chunkLen <= x.Length == |a|
    requires Chunked(x[..], a, base, chunkLen, last)
    modifies x
    ensures Chunked(x[..], a, base + chunkLen, chunkLen, last')
  {
    assert chunkLen >= 1;
    hide *;
    var tmp1 := x[base - 1];
    var tmp2 := x[base + chunkLen - 2];
    ghost var x0 := x[..];
    assert tmp1 == x0[base - 1] && tmp2 == x0[base + chunkLen - 2];
    x[base - 1] := x[base - 1] + last;
    ghost var b := x[base - 1..base - 1 + chunkLen];
    assert x[..] == x0[base - 1 := x0[base - 1] + last];
    PrefixSumTree(x, base - 1, chunkLen);
    ghost var x1 := x[..];
    assert x1[base - 1..base - 1 + chunkLen] == x[base - 1..base - 1 + chunkLen];
    assert x1[..base - 1] == x0[..base - 1] && x1[base - 1 + chunkLen..] == x0[base - 1 + chunkLen..];
    x[base - 1] := tmp1;
    last' := x[base + chunkLen - 1];
    x[base + chunkLen - 1] := x[base + chunkLen - 2] + tmp2;
    ChunkDone(x0, b, x1, x[..], a, base, chunkLen, last);
  }

  lemma ChunkDone(x0: seq<real>, b: seq<real>, x1: seq<real>, x2: seq<real>, a: seq<real>, base: nat, chunkLen: nat, last: real)
    requires 0 < base && 1 <= chunkLen && base + chunkLen <= |a| == |x0| == |x1| == |x2|
    requires Chunked(x0, a, base, chunkLen, last)
    requires b == x0[base - 1 := x0[base - 1] + last][base - 1..base - 1 + chunkLen]
    requires x1[..base - 1] == x0[..base - 1] && x1[base - 1 + chunkLen..] == x0[base - 1 + chunkLen..]
    requires x1[base - 1..base - 1 + chunkLen] == PrefixSums(b)
    requires var y := x1[base - 1 := x0[base - 1]];
             x2 == y[base + chunkLen - 1 := y[base + chunkLen - 2] + x0[base + chunkLen - 2]]
    ensures Chunked(x2, a, base + chunkLen, chunkLen, x1[base + chunkLen - 1])
  {
    forall j | base + chunkLen - 1 <= j < |a| ensures x1[j] == a[j] {
      assert x1[base - 1 + chunkLen..][j - (base - 1 + chunkLen)] == x0[j];
    }
    forall j | 0 <= j < base - 1 ensures x1[j] == x0[j] {
      assert x1[..base - 1][j] == x0[..base - 1][j];
    }
    if chunkLen >= 2 {
      assert b[0] == Prefix(a, base - 1) + a[base - 1] == Prefix(a, base);
      forall j | base <= j < base + chunkLen - 1 ensures x1[j] == Prefix(a, j) {
        var k := j - (base - 1);
        Borrowed(a, b, base, k);
        assert x1[j] == x1[base - 1..base - 1 + chunkLen][k];
      }
      assert Prefix(a, base + chunkLen - 1) == Prefix(a, base + chunkLen - 2) + a[base + chunkLen - 2];
    }
  }

  // The chunked scan. Chunks of two or more give the prefix sums of the whole
  // array; chunks of one give zeros.
  method PrefixSumTreePartitioned(x: array<real>, chunkLen: nat)
    requires PowerOfTwo(chunkLen) && x.Length % chunkLen == 0
    modifies x
    ensures chunkLen >= 2 ==> x[..] == PrefixSums(old(x[..]))
    ensures chunkLen == 1 ==> forall j :: 0 <= j < x.Length ==> x[j] == 0.0
  {
    ghost var a := x[..];
    var last := 0.0;
    var base := 0;
    assert chunkLen >= 1;
    while base < x.Length
      invariant base <= x.Length && (x.Length - base) % chunkLen == 0
      invariant Chunked(x[..], a, base, chunkLen, last)
      decreases x.Length - base
    {
      hide Chunked, PrefixSums, Prefix, PowerOfTwo;
      ChunkFits(x.Length - base, chunkLen);
      if base == 0 {
        Untouched(x[..], a, chunkLen, last);
        last := x[base + chunkLen - 1];
        assert x[..] == a && a[..chunkLen] == x[0..0 + chunkLen];
        PrefixSumTree(x, 0, chunkLen);
        assert x[..][..chunkLen] == x[0..0 + chunkLen] && x[..][chunkLen..] == x[0 + chunkLen..];
        FirstChunk(x[..], a, chunkLen);
      } else {
        last := NextChunk(x, base, chunkLen, last, a);
      }
      base := base + chunkLen;
    }
  }

  lemma Untouched(x: seq<real>, a: seq<real>, chunkLen: nat, last: real)
    requires Chunked(x, a, 0, chunkLen, last)
    ensures x == a
  {
  }

  lemma ChunkFits(rest: nat, chunkLen: nat)
    requires chunkLen > 0 && rest > 0 && rest % chunkLen == 0
    ensures chunkLen <= rest && (rest - chunkLen) % chunkLen == 0
  {
    var q := rest / chunkLen;
    assert rest == chunkLen * q;
    assert q >= 1;
    assert rest - chunkLen == chunkLen * (q - 1) + 0;
    RemainderIs(rest - chunkLen, chunkLen, q - 1, 0);
  }

  lemma {:induction false} PrefixOfTake(a: seq<real>, n: nat, k: nat)
    requires k <= n <= |a|
    ensures Prefix(a[..n], k) == Prefix(a, k)
  {
    if k > 0 { PrefixOfTake(a, n, k - 1); }
  }

  lemma FirstChunk(x: seq<real>, a: seq<real>, chunkLen: nat)
    requires |x| == |a| && 1 <= chunkLen <= |a|
    requires x[..chunkLen] == PrefixSums(a[..chunkLen]) && x[chunkLen..] == a[chunkLen..]
    ensures Chunked(x, a, chunkLen, chunkLen, a[chunkLen - 1])
  {
    forall j | 0 <= j < chunkLen ensures x[j] == Prefix(a, j) {
      PrefixOfTake(a, chunkLen, j);
      assert x[j] == x[..chunkLen][j];
    }
    forall j | chunkLen <= j < |a| ensures x[j] == a[j] {
      assert x[chunkLen..][j - chunkLen] == a[chunkLen..][j - chunkLen];
    }
  }

  ghost predicate FirstAreZero(a: seq<real>, n: nat) {
    n <= |a| && forall j :: 0 <= j < n ==> a[j] == 0.0
  }

  // Every exclusive sum up to that of element n is zero.
  ghost predicate SumsAreZero(a: seq<real>, n: nat) {
    n <= |a| && forall j :: 0 <= j <= n ==> Prefix(a, j) == 0.0
  }

  lemma {:induction false} ZerosSum(a: seq<real>, n: nat, k: nat)
    requires k <= n && FirstAreZero(a, n)
    ensures Prefix(a, k) == 0.0
  {
    if k > 0 { ZerosSum(a, n, k - 1); }
  }

  // So chunks of one are right if and only if all elements but the last are
  // zero; [1, 1] is already too much for them.
  lemma {:induction false} ChunksOfOneIff(a: seq<real>, n: nat)
    requires n < |a|
    ensures SumsAreZero(a, n) <==> FirstAreZero(a, n)
  {
    if SumsAreZero(a, n) {
      forall k | 0 <= k < n ensures a[k] == 0.0 { assert Prefix(a, k + 1) == Prefix(a, k) + a[k]; }
    }
    if FirstAreZero(a, n) {
      forall k | 0 <= k <= n ensures Prefix(a, k) == 0.0 { ZerosSum(a, n, k); }
    }
  }
}
