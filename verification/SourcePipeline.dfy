/**
 * The way of a source id through the cache kernel: packages of sixteen ids are
 * turned round (`src_buffer`), dealt out to eight cache elements
 * (`src_dispatch`) and their answers put together again (`src_merge`), while
 * the coalescer and the read engine make the lines the elements need.
 */
module SourcePipeline {
  import opened CachePe
  import opened SourceCache
  import opened SourceCacheResults
  import opened ReadEngine
  import C = Coalesce
  import N = CoalesceChain

  const PES := 8
  const LAST_PE := 7

  datatype Package = Package(data: seq<nat>, last: bool)

  // ---------------------------------------------------------------------
  // The lines the coalescer and the read engine produce for sorted ids.
  // ---------------------------------------------------------------------

  function BurstIds(ids: seq<nat>, b: nat): (r: seq<nat>)
    requires b > 0
    ensures |r| == |ids| && forall k :: 0 <= k < |ids| ==> r[k] == ids[k] / (16 * b)
  {
    seq(|ids|, k requires 0 <= k < |ids| => ids[k] / (16 * b))
  }

  // Everything the elements are sent: the bursts of the ids, each once.
  function LinesFor(mem: nat -> nat, b: nat, ids: seq<nat>): seq<Line>
    requires b > 0
  {
    LineStream(mem, b, C.Dedup(BurstIds(ids, b)))
  }

  lemma DivideSorted(x: nat, y: nat, d: nat)
    requires x <= y && d > 0
    ensures x / d <= y / d
  {
    var p, q := x / d, y / d;
    assert x == d * p + x % d && y == d * q + y % d;
    ScaleUp(d, p, q);
  }

  lemma ScaleUp(d: nat, p: nat, q: nat)
    ensures p > q ==> d * p >= d * q + d
  {
    if p > q { Distribute(d, q, p - q); }
  }

  lemma Distribute(d: nat, q: nat, t: nat)
    ensures d * (q + t) == d * q + d * t
    ensures t >= 1 ==> d * t >= d
  {
  }

  lemma BurstsIncrease(ids: seq<nat>, b: nat)
    requires b > 0 && Sorted(ids)
    ensures StrictlyIncreasing(C.Dedup(BurstIds(ids, b)))
  {
    var s := BurstIds(ids, b);
    forall i, j | 0 <= i < j < |s| ensures s[i] <= s[j] { DivideSorted(ids[i], ids[j], 16 * b); }
    C.DedupSorted(s);
  }

  lemma LastLineAtEnd(b: nat, idxs: seq<nat>)
    requires b > 0 && idxs != []
    ensures LastAddr(b, idxs) + 16 == BurstEnd(b, idxs) && BurstEnd(b, idxs) % 16 == 0
  {
    var x := idxs[|idxs| - 1];
    assert (x + 1) * (16 * b) == x * (16 * b) + 16 * b;
    assert (x + 1) * (16 * b) == 16 * ((x + 1) * b);
  }

  lemma TwoMoreLines(mem: nat -> nat, lines: seq<Line>, end: nat)
    requires BurstLines(mem, lines, end) && end % 16 == 0
    ensures var all := lines + [Line(end, ZEROS, false), Line(end + 16, ZEROS, true)];
            Increasing(all) && WellFormed(all)
  {
  }

  lemma StreamIsWellFormed(mem: nat -> nat, b: nat, idxs: seq<nat>)
    requires b > 0 && idxs != [] && StrictlyIncreasing(idxs)
    ensures Increasing(LineStream(mem, b, idxs)) && WellFormed(LineStream(mem, b, idxs))
  {
    hide StrictlyIncreasing, Bursts, BurstLines, BurstEnd, LastAddr, Increasing, WellFormed;
    BurstsAreLines(mem, b, idxs);
    LastLineAtEnd(b, idxs);
    TwoMoreLines(mem, Bursts(mem, b, idxs), BurstEnd(b, idxs));
  }

  // No row of an id lies behind the last burst.
  lemma RowBeforeEnd(ids: seq<nat>, b: nat, q: nat)
    requires b > 0 && Sorted(ids) && q < |ids|
    ensures RowBase(ids[q]) < BurstEnd(b, C.Dedup(BurstIds(ids, b)))
  {
    var d, last := 16 * b, ids[|ids| - 1] / (16 * b);
    DivideSorted(ids[q], ids[|ids| - 1], d);
    assert ids[q] == d * (ids[q] / d) + ids[q] % d;
    assert (last + 1) * d == last * d + d;
    assert d * (ids[q] / d) <= d * last;
  }

  lemma RowIsServed(mem: nat -> nat, b: nat, ids: seq<nat>, q: nat) returns (j: nat)
    requires b > 0 && q < |ids|
    ensures j < |Bursts(mem, b, C.Dedup(BurstIds(ids, b)))| && Bursts(mem, b, C.Dedup(BurstIds(ids, b)))[j].addr == RowBase(ids[q])
  {
    var s := BurstIds(ids, b);
    C.DedupMembers(s, s[q]);
    assert s[q] in s;
    var i := RowInBurst(ids[q], b);
    BurstsCover(mem, b, C.Dedup(s), s[q], i);
    j :| 0 <= j < |Bursts(mem, b, C.Dedup(s))| && Bursts(mem, b, C.Dedup(s))[j].addr == s[q] * (16 * b) + 16 * i;
  }

  // So for sorted ids the lines are what a cache element needs, for any of the
  // ids it is given.
  lemma LinesServe(mem: nat -> nat, b: nat, ids: seq<nat>, mine: seq<nat>)
    requires b > 0 && Sorted(ids) && Sorted(mine) && mine != [] && forall k :: 0 <= k < |mine| ==> mine[k] in ids
    ensures Inputs(mem, mine, LinesFor(mem, b, ids))
  {
    var idxs := C.Dedup(BurstIds(ids, b));
    var lines, front := LinesFor(mem, b, ids), Bursts(mem, b, idxs);
    assert mine[0] in ids;
    BurstsIncrease(ids, b);
    StreamIsWellFormed(mem, b, idxs);
    BurstsAreLines(mem, b, idxs);
    forall q: nat | q < |mine| ensures Covered(mine, lines, q) {
      var k :| 0 <= k < |ids| && ids[k] == mine[q];
      var j := RowIsServed(mem, b, ids, k);
      assert lines[j] == front[j];
      assert Serves(mine, lines, q, j);
    }
    forall q: nat, j: nat | Serves(mine, lines, q, j) ensures HoldsWords(mem, lines[j]) {
      ServedHoldsWords(mem, b, ids, mine, q, j);
    }
  }

  lemma ServedHoldsWords(mem: nat -> nat, b: nat, ids: seq<nat>, mine: seq<nat>, q: nat, j: nat)
    requires b > 0 && Sorted(ids) && q < |mine| && mine[q] in ids
    requires Serves(mine, LinesFor(mem, b, ids), q, j)
    ensures HoldsWords(mem, LinesFor(mem, b, ids)[j])
  {
    var idxs := C.Dedup(BurstIds(ids, b));
    var lines, front := LinesFor(mem, b, ids), Bursts(mem, b, idxs);
    var k :| 0 <= k < |ids| && ids[k] == mine[q];
    RowBeforeEnd(ids, b, k);
    LastLineAtEnd(b, idxs);
    BurstsIncrease(ids, b);
    BurstsAreLines(mem, b, idxs);
    if j < |front| { assert lines[j] == front[j]; }
  }

  // ---------------------------------------------------------------------
  // Packages.
  // ---------------------------------------------------------------------

  // The ids of all packages in order.
  function Flatten(pkgs: seq<seq<nat>>): (ids: seq<nat>)
    requires forall k :: 0 <= k < |pkgs| ==> |pkgs[k]| == 16
    ensures |ids| == 16 * |pkgs| && forall n :: 0 <= n < |ids| ==> ids[n] == pkgs[n / 16][n % 16]
  {
    seq(16 * |pkgs|, n requires 0 <= n < 16 * |pkgs| => pkgs[n / 16][n % 16])
  }

  // The ids cache element i looks up: words 14 - 2i and 15 - 2i of every
  // package.
  function Share(pkgs: seq<seq<nat>>, i: nat): (mine: seq<nat>)
    requires i < PES && forall k :: 0 <= k < |pkgs| ==> |pkgs[k]| == 16
    ensures |mine| == 2 * |pkgs|
    ensures forall n :: 0 <= n < |mine| ==> mine[n] == pkgs[n / 2][14 - 2 * i + n % 2]
  {
    seq(2 * |pkgs|, n requires 0 <= n < 2 * |pkgs| => pkgs[n / 2][14 - 2 * i + n % 2])
  }

  // Where word n of a share is in the flattened packages.
  function SharePlace(i: nat, n: nat): int {
    16 * (n / 2) + 14 - 2 * i + n % 2
  }

  lemma SharePlaces(i: nat, n: nat, m: nat)
    requires i < PES
    ensures 16 * (n / 2) <= SharePlace(i, n) < 16 * (n / 2) + 16
    ensures SharePlace(i, n) / 16 == n / 2 && SharePlace(i, n) % 16 == 14 - 2 * i + n % 2
    ensures m <= n ==> SharePlace(i, m) <= SharePlace(i, n)
  {
  }

  lemma ShareAt(pkgs: seq<seq<nat>>, i: nat, n: nat)
    requires i < PES && n < 2 * |pkgs| && forall k :: 0 <= k < |pkgs| ==> |pkgs[k]| == 16
    ensures 0 <= SharePlace(i, n) < |Flatten(pkgs)| && Share(pkgs, i)[n] == Flatten(pkgs)[SharePlace(i, n)]
  {
    SharePlaces(i, n, n);
    hide SharePlace;
  }

  lemma ShareSorted(pkgs: seq<seq<nat>>, i: nat)
    requires i < PES && pkgs != [] && forall k :: 0 <= k < |pkgs| ==> |pkgs[k]| == 16
    requires Sorted(Flatten(pkgs))
    ensures Sorted(Share(pkgs, i)) && Share(pkgs, i) != []
    ensures forall n :: 0 <= n < |Share(pkgs, i)| ==> Share(pkgs, i)[n] in Flatten(pkgs)
  {
    hide SharePlace;
    var mine := Share(pkgs, i);
    forall n | 0 <= n < |mine| ensures mine[n] in Flatten(pkgs) { ShareAt(pkgs, i, n); }
    forall q, r | 0 <= q <= r < |mine| ensures mine[q] <= mine[r] {
      ShareAt(pkgs, i, q);
      ShareAt(pkgs, i, r);
      SharePlaces(i, r, q);
    }
  }

  // ---------------------------------------------------------------------
  // From packages to burst commands (`src_to_address` and the coalescer).
  // ---------------------------------------------------------------------

  const INVALID_VERTEX := 0xFFFFFFFF

  // The burst an id is in.
  function BurstOf(id: nat, b: nat): nat
    requires b > 0
  {
    Quotient(id, 16 * b)
  }

  function Quotient(x: nat, d: nat): nat
    requires d > 0
  {
    x / d
  }

  // Lane c of every package as a burst number.
  function Column(pkgs: seq<seq<nat>>, b: nat, c: nat): (col: seq<nat>)
    requires b > 0 && c < 16 && forall k :: 0 <= k < |pkgs| ==> |pkgs[k]| == 16
    ensures |col| == |pkgs| && forall k :: 0 <= k < |pkgs| ==> col[k] == pkgs[k][c] / (16 * b)
  {
    seq(|pkgs|, k requires 0 <= k < |pkgs| => BurstOf(pkgs[k][c], b))
  }

  function Columns(pkgs: seq<seq<nat>>, b: nat): (cols: seq<seq<nat>>)
    requires b > 0 && forall k :: 0 <= k < |pkgs| ==> |pkgs[k]| == 16
    ensures |cols| == 16 && forall c :: 0 <= c < 16 ==> |cols[c]| == |pkgs|
    ensures forall c, k :: 0 <= c < 16 && 0 <= k < |pkgs| ==> cols[c][k] == pkgs[k][c] / (16 * b)
  {
    seq(16, c requires 0 <= c < 16 => Column(pkgs, b, c))
  }

  lemma {:induction false} ConcatRows(rows: seq<seq<nat>>, n: nat)
    requires (forall r :: 0 <= r < |rows| ==> |rows[r]| == 16) && n < 16 * |rows|
    ensures |C.Concat(rows)| == 16 * |rows| && C.Concat(rows)[n] == rows[n / 16][n % 16]
  {
    var m := |rows| - 1;
    if m > 0 { ConcatRows(rows[..m], if n < 16 * m then n else 0); }
    assert |C.Concat(rows[..m])| == 16 * m;
    assert n >= 16 * m ==> n / 16 == m && n % 16 == n - 16 * m;
  }

  // Row by row, the columns are the burst numbers of the ids in order.
  lemma ColumnsFlatten(pkgs: seq<seq<nat>>, b: nat)
    requires b > 0 && pkgs != [] && forall k :: 0 <= k < |pkgs| ==> |pkgs[k]| == 16
    ensures C.Concat(N.WholeRows(Columns(pkgs, b))) == BurstIds(Flatten(pkgs), b)
  {
    var rows := N.WholeRows(Columns(pkgs, b));
    ConcatRows(rows, 0);
    forall n | 0 <= n < 16 * |pkgs|
      ensures C.Concat(rows)[n] == BurstIds(Flatten(pkgs), b)[n]
    {
      ConcatRows(rows, n);
      assert rows[n / 16][n % 16] == pkgs[n / 16][n % 16] / (16 * b);
    }
  }

  lemma {:induction false} DedupRepeats(s: seq<nat>, t: seq<nat>, e: nat)
    requires e !in s && t != [] && forall k :: 0 <= k < |t| ==> t[k] == e
    ensures C.Dedup(s + t) == C.Dedup(s) + [e]
  {
    var front := t[..|t| - 1];
    assert s + t == (s + front) + [e];
    C.DedupSnoc(s + front, e);
    if front == [] {
      assert s + front == s;
    } else {
      DedupRepeats(s, front, e);
    }
  }

  lemma {:induction false} FirstAtEnd(s: seq<nat>, e: nat)
    requires e !in s
    ensures First(s + [e], e) == |s|
  {
    if s != [] {
      assert (s + [e])[1..] == s[1..] + [e];
      FirstAtEnd(s[1..], e);
    }
  }

  // At any moment of any run of the coalescer on the packages and their
  // terminator: the commands sent begin with each burst of the ids once, and
  // once the end marker has been sent the read engine has seen exactly those.
  // By the time the coalescer rests, which it always comes to, it has been.
  lemma CommandsAreBursts(pkgs: seq<seq<nat>>, b: nat, terminator: seq<nat>, run: seq<N.Chain>, t: nat)
    requires b > 0 && forall k :: 0 <= k < |pkgs| ==> |pkgs[k]| == 16
    requires |terminator| == 16 && forall c :: 0 <= c < 16 ==> terminator[c] == 0xFFFFFFFF
    requires forall k, c :: 0 <= k < |pkgs| && 0 <= c < 16 ==> pkgs[k][c] / (16 * b) != 0xFFFFFFFF / (16 * b)
    requires N.IsRun(Columns(pkgs + [terminator], b), run) && t < |run|
    ensures var cmds, end, bursts := run[t].out, 0xFFFFFFFF / (16 * b), C.Dedup(BurstIds(Flatten(pkgs), b));
            && (if end in cmds then cmds[..First(cmds, end)] == bursts else cmds <= bursts)
            && (N.Shaped(Columns(pkgs + [terminator], b), run[t]) && N.Stuck(Columns(pkgs + [terminator], b), run[t]) ==> end in cmds)
  {
    var all := pkgs + [terminator];
    var cols, end := Columns(all, b), 0xFFFFFFFF / (16 * b);
    var full := C.Dedup(C.Concat(N.WholeRows(cols)));
    N.OutputBegins(cols, run, t);
    ColumnsFlatten(all, b);
    BurstsAndEnd(pkgs, b, terminator);
    EndMarker(BurstIds(Flatten(pkgs), b), BurstIds(terminator, b), end);
    PrefixCommands(run[t].out, full, end);
    if N.Shaped(cols, run[t]) && N.Stuck(cols, run[t]) {
      RunUpTo(cols, run, t);
      N.CoalescerOutput(cols, run[..t + 1]);
    }
  }

  lemma RunUpTo(cols: seq<seq<nat>>, run: seq<N.Chain>, t: nat)
    requires N.IsRun(cols, run) && t < |run|
    ensures N.IsRun(cols, run[..t + 1])
  {
    var r := run[..t + 1];
    forall u | 0 <= u < |r| - 1 ensures N.Steps(cols, r[u], r[u + 1]) {
      assert r[u] == run[u] && r[u + 1] == run[u + 1];
    }
  }

  // Commands that begin full, up to the end marker or before it.
  lemma PrefixCommands(cmds: seq<nat>, full: seq<nat>, end: nat)
    requires cmds <= full && end in full
    ensures if end in cmds then cmds[..First(cmds, end)] == full[..First(full, end)] else cmds <= full[..First(full, end)]
  {
    if end in cmds {
      assert cmds[First(cmds, end)] == full[First(cmds, end)] == end;
    }
  }

  lemma BurstsAndEnd(pkgs: seq<seq<nat>>, b: nat, terminator: seq<nat>)
    requires b > 0 && |terminator| == 16 && forall k :: 0 <= k < |pkgs| ==> |pkgs[k]| == 16
    requires forall c :: 0 <= c < 16 ==> terminator[c] == 0xFFFFFFFF
    requires forall k, c :: 0 <= k < |pkgs| && 0 <= c < 16 ==> pkgs[k][c] / (16 * b) != 0xFFFFFFFF / (16 * b)
    ensures BurstIds(Flatten(pkgs + [terminator]), b) == BurstIds(Flatten(pkgs), b) + BurstIds(terminator, b)
    ensures 0xFFFFFFFF / (16 * b) !in BurstIds(Flatten(pkgs), b)
    ensures forall c :: 0 <= c < 16 ==> BurstIds(terminator, b)[c] == 0xFFFFFFFF / (16 * b)
  {
    var all := pkgs + [terminator];
    forall n | 0 <= n < 16 * |all|
      ensures Flatten(all)[n] == if n < 16 * |pkgs| then Flatten(pkgs)[n] else terminator[n - 16 * |pkgs|]
    {
      assert n >= 16 * |pkgs| ==> n / 16 == |pkgs| && n % 16 == n - 16 * |pkgs|;
    }
    assert Flatten(all) == Flatten(pkgs) + terminator;
  }

  // Burst numbers s followed by copies of the end marker.
  lemma EndMarker(s: seq<nat>, t: seq<nat>, end: nat)
    requires end !in s && t != [] && forall k :: 0 <= k < |t| ==> t[k] == end
    ensures var cmds := C.Dedup(s + t); end in cmds && cmds[..First(cmds, end)] == C.Dedup(s)
  {
    DedupRepeats(s, t, end);
    C.DedupMembers(s, end);
    FirstAtEnd(C.Dedup(s), end);
  }

  // The packages as they arrive: the ids, then the terminator.
  ghost predicate Arriving(input: seq<Package>, pkgs: seq<seq<nat>>) {
    && |input| == |pkgs| + 1 && pkgs != []
    && input[|pkgs|].last
    && forall k :: 0 <= k < |pkgs| ==> input[k] == Package(pkgs[k], false) && |pkgs[k]| == 16
  }

  // Turns every package round, one behind, so that the last one carries the
  // terminator's flag and the terminator itself goes no further.
  method SrcBuffer(input: seq<Package>, ghost pkgs: seq<seq<nat>>) returns (out: seq<Package>)
    requires Arriving(input, pkgs)
    ensures |out| == |pkgs|
    ensures forall k :: 0 <= k < |out| ==> |out[k].data| == 16 && out[k].last == (k == |out| - 1)
    ensures forall k, i :: 0 <= k < |out| && 0 <= i < 16 ==> out[k].data[i] == pkgs[k][15 - i]
  {
    out := [];
    var lastPkg := input[0];
    var k := 1;
    while true
      invariant 1 <= k <= |pkgs| && |out| == k - 1 && lastPkg == input[k - 1]
      invariant forall l :: 0 <= l < k - 1 ==> |out[l].data| == 16 && !out[l].last
      invariant forall l, i :: 0 <= l < k - 1 && 0 <= i < 16 ==> out[l].data[i] == pkgs[l][15 - i]
      decreases |pkgs| - k
    {
      var pkg := input[k];
      out := out + [Package(seq(16, i requires 0 <= i < 16 => lastPkg.data[15 - i]), pkg.last)];
      if pkg.last { break; }
      lastPkg := pkg;
      k := k + 1;
    }
  }

  // The lookups of one element: its share, the last one flagged.
  function Lookups(mine: seq<nat>): (l: seq<Lookup>)
    ensures |l| == |mine| && forall n :: 0 <= n < |l| ==> l[n] == Lookup(mine[n], n == |mine| - 1)
  {
    seq(|mine|, n requires 0 <= n < |mine| => Lookup(mine[n], n == |mine| - 1))
  }

  // Deals each turned package out: the odd words first, then the even ones.
  method SrcDispatch(input: seq<Package>, i: nat, ghost pkgs: seq<seq<nat>>) returns (out: seq<Lookup>)
    requires i < PES && |input| == |pkgs| > 0 && forall k :: 0 <= k < |pkgs| ==> |pkgs[k]| == 16
    requires forall k :: 0 <= k < |input| ==> |input[k].data| == 16 && input[k].last == (k == |input| - 1)
    requires forall k, j :: 0 <= k < |input| && 0 <= j < 16 ==> input[k].data[j] == pkgs[k][15 - j]
    ensures out == Lookups(Share(pkgs, i))
  {
    out := [];
    var k := 0;
    while true
      invariant 0 <= k < |input| && |out| == 2 * k
      invariant forall n :: 0 <= n < |out| ==> out[n] == Lookup(Share(pkgs, i)[n], false)
      decreases |input| - k
    {
      out := out + [Lookup(input[k].data[2 * i + 1], false)];
      out := out + [Lookup(input[k].data[2 * i], input[k].last)];
      k := k + 1;
      if input[k - 1].last { break; }
    }
  }

  // A package holds the k-th answers of all elements, in the places their
  // lookups came from.
  ghost predicate Merged(pkg: Package, input: seq<seq<Answer>>, k: nat)
    requires |input| == PES && forall i :: 0 <= i < PES ==> |input[i]| >= 2 * k + 2
  {
    && |pkg.data| == 16 && pkg.last == input[LAST_PE][2 * k + 1].last
    && (forall i :: 0 <= i < PES ==> pkg.data[14 - 2 * i] == input[i][2 * k].value)
    && (forall i :: 0 <= i < PES ==> pkg.data[15 - 2 * i] == input[i][2 * k + 1].value)
  }

  method MergeOne(input: seq<seq<Answer>>, k: nat) returns (pkg: Package)
    requires |input| == PES && forall i :: 0 <= i < PES ==> |input[i]| >= 2 * k + 2
    ensures Merged(pkg, input, k)
  {
    var data: seq<nat> := seq(16, _ => 0);
    var i := 0;
    while i < PES
      invariant 0 <= i <= PES && |data| == 16
      invariant forall j :: 0 <= j < i ==> data[14 - 2 * j] == input[j][2 * k].value
    {
      data := data[15 - (2 * i + 1) := input[i][2 * k].value];
      i := i + 1;
    }
    i := 0;
    while i < PES
      invariant 0 <= i <= PES && |data| == 16
      invariant forall j :: 0 <= j < PES ==> data[14 - 2 * j] == input[j][2 * k].value
      invariant forall j :: 0 <= j < i ==> data[15 - 2 * j] == input[j][2 * k + 1].value
    {
      data := data[15 - 2 * i := input[i][2 * k + 1].value];
      i := i + 1;
    }
    pkg := Package(data, input[LAST_PE][2 * k + 1].last);
  }

  // Puts the answers of the eight elements back into packages, up to the one
  // that carries the last element's end flag.
  method SrcMerge(input: seq<seq<Answer>>, ghost packages: nat) returns (out: seq<Package>)
    requires |input| == PES && packages > 0 && forall i :: 0 <= i < PES ==> |input[i]| == 2 * packages
    requires forall k :: 0 <= k < packages ==> input[LAST_PE][2 * k + 1].last == (k == packages - 1)
    ensures |out| == packages && forall k :: 0 <= k < packages ==> Merged(out[k], input, k)
  {
    out := [];
    var k := 0;
    while true
      invariant 0 <= k < packages && |out| == k
      invariant forall l :: 0 <= l < k ==> Merged(out[l], input, l)
      decreases packages - k
    {
      var pkg := MergeOne(input, k);
      out := out + [pkg];
      k := k + 1;
      if pkg.last { break; }
    }
  }

  // ---------------------------------------------------------------------
  // The whole path.
  // ---------------------------------------------------------------------

  // The stream of lines, as something the elements depend on.
  function SourceOf(b: nat, ids: seq<nat>): LineSource
    requires b > 0
  {
    (mem: nat -> nat) => LinesFor(mem, b, ids)
  }

  lemma {:induction false} BurstsSameAddresses(mem: nat -> nat, mem': nat -> nat, b: nat, idxs: seq<nat>)
    ensures SameAddresses(Bursts(mem, b, idxs), Bursts(mem', b, idxs))
  {
    if idxs != [] { BurstsSameAddresses(mem, mem', b, idxs[..|idxs| - 1]); }
  }

  lemma LinesSameAddresses(mem: nat -> nat, mem': nat -> nat, b: nat, ids: seq<nat>)
    requires b > 0
    ensures SameAddresses(LinesFor(mem, b, ids), LinesFor(mem', b, ids))
  {
    BurstsSameAddresses(mem, mem', b, C.Dedup(BurstIds(ids, b)));
  }

  // Burst lines hold their words, the two lines at the end zeros.
  lemma LinesWordsOrZeros(mem: nat -> nat, b: nat, ids: seq<nat>)
    requires b > 0 && Sorted(ids)
    ensures WordsOrZeros(mem, LinesFor(mem, b, ids))
  {
    BurstsIncrease(ids, b);
    BurstsAreLines(mem, b, C.Dedup(BurstIds(ids, b)));
  }

  lemma PipelineDelivers(b: nat, ids: seq<nat>, mine: seq<nat>)
    requires b > 0 && Sorted(ids) && Sorted(mine) && mine != [] && forall k :: 0 <= k < |mine| ==> mine[k] in ids
    ensures Delivers(mine, SourceOf(b, ids))
  {
    var source := SourceOf(b, ids);
    forall mem: nat -> nat ensures Inputs(mem, mine, source(mem)) && WordsOrZeros(mem, source(mem)) {
      LinesServe(mem, b, ids, mine);
      LinesWordsOrZeros(mem, b, ids);
    }
    forall mem: nat -> nat, mem': nat -> nat ensures SameAddresses(source(mem), source(mem')) {
      LinesSameAddresses(mem, mem', b, ids);
    }
  }

  // An element behind the dispatcher, with the lines of the read engine: its
  // answers are memory words for every memory and timing if and only if its
  // share of the sorted ids has no hazard in those lines.
  lemma ElementReadsMemoryIff(b: nat, pkgs: seq<seq<nat>>, i: nat)
    requires b > 0 && i < PES && pkgs != [] && forall k :: 0 <= k < |pkgs| ==> |pkgs[k]| == 16
    requires Sorted(Flatten(pkgs))
    ensures Delivers(Share(pkgs, i), SourceOf(b, Flatten(pkgs)))
    ensures AlwaysCorrect(Share(pkgs, i), SourceOf(b, Flatten(pkgs))) <==> Safe(Share(pkgs, i), LinesFor(ZERO, b, Flatten(pkgs)))
  {
    ShareSorted(pkgs, i);
    PipelineDelivers(b, Flatten(pkgs), Share(pkgs, i));
    CorrectIffSafe(Share(pkgs, i), SourceOf(b, Flatten(pkgs)));
  }

  // Without a hazard every answer sent so far is right, in every run; and it
  // never blocks: once both its streams have been offered often enough it has
  // answered its whole share, hazard or not.
  lemma ElementReadsMemory(mem: nat -> nat, b: nat, pkgs: seq<seq<nat>>, s: Pass, offers: seq<Offer>, i: nat)
    requires b > 0 && i < PES && pkgs != [] && forall k :: 0 <= k < |pkgs| ==> |pkgs[k]| == 16
    requires Sorted(Flatten(pkgs)) && Starts(s)
    ensures Inputs(mem, Share(pkgs, i), LinesFor(mem, b, Flatten(pkgs)))
    ensures var t := After(Share(pkgs, i), LinesFor(mem, b, Flatten(pkgs)), s, offers);
            && (Safe(Share(pkgs, i), LinesFor(ZERO, b, Flatten(pkgs))) ==> Correct(mem, Share(pkgs, i), t.out))
            && (Rounds(offers).rounds >= 4 * |pkgs| + 2 * |LinesFor(mem, b, Flatten(pkgs))| ==> Finished(t) && |t.out| == 2 * |pkgs|)
  {
    var mine, lines := Share(pkgs, i), LinesFor(mem, b, Flatten(pkgs));
    ShareSorted(pkgs, i);
    LinesServe(mem, b, Flatten(pkgs), mine);
    if Rounds(offers).rounds >= 4 * |pkgs| + 2 * |lines| { EveryRunFinishes(mem, mine, lines, s, offers); }
    if Safe(mine, LinesFor(ZERO, b, Flatten(pkgs))) {
      LinesSameAddresses(ZERO, mem, b, Flatten(pkgs));
      SafeDependsOnAddresses(mine, LinesFor(ZERO, b, Flatten(pkgs)), lines);
      SafeRunsAreCorrect(mem, mine, lines, s, offers);
    }
  }

  lemma {:induction false} DedupTwoRuns(s: seq<nat>, m: nat, x: nat, y: nat)
    requires 0 < m <= |s| && x != y && forall k :: 0 <= k < |s| ==> s[k] == if k < m then x else y
    ensures C.Dedup(s) == if m < |s| then [x, y] else [x]
  {
    var n := |s| - 1;
    if n > 0 {
      DedupTwoRuns(s[..n], if m < n then m else n, x, y);
      C.DedupSnoc(s[..n], s[n]);
      assert s == s[..n] + [s[n]];
    }
  }

  // Two packages that the kernels can be given: ids 0 and 1, and sixteen times
  // 65536.
  function GapPackages(): (pkgs: seq<seq<nat>>)
    ensures |pkgs| == 2 && |pkgs[0]| == |pkgs[1]| == 16
    ensures forall j :: 0 <= j < 16 ==> pkgs[0][j] == (if j == 15 then 1 else 0) && pkgs[1][j] == 65536
  {
    [seq(16, j => if j == 15 then 1 else 0), seq(16, _ => 65536)]
  }

  lemma GapLines(mem: nat -> nat)
    ensures var lines := LinesFor(mem, 32, Flatten(GapPackages()));
            |lines| > 32 && lines[31].addr == 496 && lines[32].addr == 65536
  {
    var s := BurstIds(Flatten(GapPackages()), 32);
    forall k | 0 <= k < |s| ensures s[k] == if k < 16 then 0 else 128 {
      assert Flatten(GapPackages())[k] == GapPackages()[k / 16][k % 16];
    }
    DedupTwoRuns(s, 16, 0, 128);
    assert [0, 128][..1] == [0] && [0][..0] == [];
    assert Bursts(mem, 32, [0, 128]) == Bursts(mem, 32, [0]) + Burst(mem, 32, 128);
    assert Bursts(mem, 32, [0]) == Bursts(mem, 32, []) + Burst(mem, 32, 0);
  }

  // With bursts of 32 lines the first element is not always right for them.
  lemma GapBreaksAnElement()
    ensures Sorted(Flatten(GapPackages())) && Delivers(Share(GapPackages(), 0), SourceOf(32, Flatten(GapPackages())))
    ensures !AlwaysCorrect(Share(GapPackages(), 0), SourceOf(32, Flatten(GapPackages())))
  {
    var pkgs := GapPackages();
    forall q, r | 0 <= q <= r < |Flatten(pkgs)| ensures Flatten(pkgs)[q] <= Flatten(pkgs)[r] {
      assert Flatten(pkgs)[q] == pkgs[q / 16][q % 16] && Flatten(pkgs)[r] == pkgs[r / 16][r % 16];
    }
    ElementReadsMemoryIff(32, pkgs, 0);
    GapLines(ZERO);
    var mine := Share(pkgs, 0);
    assert mine[0] == pkgs[0][14] == 0 && mine[1] == pkgs[0][15] == 1;
    assert Hazard(mine, LinesFor(ZERO, 32, Flatten(pkgs)), 1, 32);
  }

  // No burst is skipped: the number of an id's burst is at most one above that
  // of the id before.
  ghost predicate NoBurstSkipped(ids: seq<nat>, b: nat)
    requires b > 0
  {
    forall n :: 0 < n < |ids| ==> ids[n] / (16 * b) <= ids[n - 1] / (16 * b) + 1
  }

  lemma ConsecutiveSnoc(d: seq<nat>, x: nat)
    requires Consecutive(d) && d != [] && x == d[|d| - 1] + 1
    ensures Consecutive(d + [x])
  {
    assert d[|d| - 1] == d[0] + (|d| - 1);
  }

  lemma DedupStaysConsecutive(s: seq<nat>, x: nat)
    requires s != [] && Consecutive(C.Dedup(s)) && s[|s| - 1] <= x <= s[|s| - 1] + 1
    ensures Consecutive(C.Dedup(s + [x])) && C.Dedup(s + [x])[0] == C.Dedup(s)[0]
  {
    hide Consecutive, C.Dedup;
    C.DedupSnoc(s, x);
    if s[|s| - 1] != x { ConsecutiveSnoc(C.Dedup(s), x); }
  }

  lemma {:induction false} DedupConsecutive(s: seq<nat>)
    requires s != [] && forall n :: 0 < n < |s| ==> s[n - 1] <= s[n] <= s[n - 1] + 1
    ensures Consecutive(C.Dedup(s)) && C.Dedup(s)[0] == s[0]
  {
    if |s| > 1 {
      hide Consecutive, C.Dedup;
      var n := |s| - 1;
      DedupConsecutive(s[..n]);
      DedupStaysConsecutive(s[..n], s[n]);
      assert s == s[..n] + [s[n]];
    }
  }

  // Sorted ids that skip no burst are read as one stretch of lines, and no share
  // of them has a hazard.
  lemma DenseIdsAreSafe(mem: nat -> nat, b: nat, ids: seq<nat>, mine: seq<nat>)
    requires b > 0 && Sorted(ids) && ids != [] && NoBurstSkipped(ids, b)
    requires Sorted(mine) && mine != [] && forall k :: 0 <= k < |mine| ==> mine[k] in ids
    ensures Safe(mine, LinesFor(mem, b, ids))
  {
    var s := BurstIds(ids, b);
    forall n | 0 < n < |s| ensures s[n - 1] <= s[n] <= s[n - 1] + 1 { DivideSorted(ids[n - 1], ids[n], 16 * b); }
    DedupConsecutive(s);
    LinesAdjacent(mem, b, C.Dedup(s));
    LinesServe(mem, b, ids, mine);
    AdjacentLinesAreSafe(mine, LinesFor(mem, b, ids));
  }

  // With all eight elements right, the merged packages are the memory words of
  // the packages that came in, word for word, and only the last is flagged.
  lemma MergedPackagesAreWords(mem: nat -> nat, pkgs: seq<seq<nat>>, answers: seq<seq<Answer>>, k: nat, pkg: Package, j: nat)
    requires pkgs != [] && (forall l :: 0 <= l < |pkgs| ==> |pkgs[l]| == 16) && |answers| == PES
    requires forall i :: 0 <= i < PES ==> |answers[i]| == 2 * |pkgs| && Correct(mem, Share(pkgs, i), answers[i])
    requires k < |pkgs| && Merged(pkg, answers, k) && j < 16
    ensures pkg.data[j] == mem(pkgs[k][j]) && pkg.last == (k == |pkgs| - 1)
  {
    var i := 7 - j / 2;
    assert j == 14 - 2 * i + j % 2;
    assert Correct(mem, Share(pkgs, i), answers[i]);
    assert Share(pkgs, i)[2 * k + j % 2] == pkgs[k][j];
    assert Correct(mem, Share(pkgs, LAST_PE), answers[LAST_PE]);
  }
}
