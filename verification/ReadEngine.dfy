/** The read engine: burst commands become 16-word cache lines. */
module ReadEngine {
  import opened CachePe
  import opened SourceCache
  import opened SourceCacheResults

  datatype Command = Command(idx: nat, flag: bool)

  /** Where `x` first occurs. */
  function First(s: seq<nat>, x: nat): (n: nat)
    requires x in s
    ensures n < |s| && s[n] == x && forall i :: 0 <= i < n ==> s[i] != x
  {
    if s[0] == x then 0 else First(s[1..], x) + 1
  }

  /** `command_convert`: pass commands on until the end marker. */
  method Convert(cmds: seq<nat>, end: nat) returns (out: seq<Command>)
    requires end in cmds
    ensures out == Commands(cmds[..First(cmds, end)])
  {
    var lastIdx, n := 0, 0;
    ghost var stop := First(cmds, end);
    out := [];
    while cmds[n] != end
      invariant n <= stop
      invariant |out| == n && forall i :: 0 <= i < n ==> out[i] == Command(cmds[i], false)
      invariant lastIdx == if n == 0 then 0 else cmds[n - 1]
      decreases stop - n
    {
      out := out + [Command(cmds[n], false)];
      lastIdx := cmds[n];
      n := n + 1;
    }
    out := out + [Command(lastIdx, true)];
  }

  /** The commands for a list of bursts: one each, then the end flag. */
  function Commands(idxs: seq<nat>): (c: seq<Command>)
    ensures |c| == |idxs| + 1
    ensures forall i :: 0 <= i < |idxs| ==> c[i] == Command(idxs[i], false)
    ensures c[|idxs|] == Command(if idxs == [] then 0 else idxs[|idxs| - 1], true)
  {
    seq(|idxs|, i requires 0 <= i < |idxs| => Command(idxs[i], false))
      + [Command(if idxs == [] then 0 else idxs[|idxs| - 1], true)]
  }

  /** The lines of one burst of `b` lines. */
  function Burst(mem: nat -> nat, b: nat, idx: nat): (lines: seq<Line>)
    ensures |lines| == b
    ensures forall i :: 0 <= i < b ==> lines[i] == Line(idx * (16 * b) + 16 * i, Words(mem, idx * (16 * b) + 16 * i), false)
  {
    seq(b, i requires 0 <= i < b => Line(idx * (16 * b) + 16 * i, Words(mem, idx * (16 * b) + 16 * i), false))
  }

  function Bursts(mem: nat -> nat, b: nat, idxs: seq<nat>): seq<Line> {
    if idxs == [] then [] else Bursts(mem, b, idxs[..|idxs| - 1]) + Burst(mem, b, idxs[|idxs| - 1])
  }

  function LastAddr(b: nat, idxs: seq<nat>): nat
    requires b > 0
  {
    if idxs == [] then 0 else idxs[|idxs| - 1] * (16 * b) + 16 * (b - 1)
  }

  const ZEROS: seq<nat> := [0, 0, 0, 0, 0, 0, 0, 0, 0, 0, 0, 0, 0, 0, 0, 0]

  /** Everything sent to the cache: the bursts, then two empty lines to let the window's top
      pass the last lookup and to end the pass. */
  function LineStream(mem: nat -> nat, b: nat, idxs: seq<nat>): seq<Line>
    requires b > 0
  {
    Bursts(mem, b, idxs) + [Line(LastAddr(b, idxs) + 16, ZEROS, false), Line(LastAddr(b, idxs) + 32, ZEROS, true)]
  }

  /** Right behind the last line read, or behind address 0 if there is none, come two lines of
      zeros, the second with the end flag. */
  ghost predicate Trailing(lines: seq<Line>, none: bool) {
    && |lines| >= (if none then 2 else 3)
    && var n := |lines| - 2;
       var last := if none then 0 else lines[n - 1].addr;
       && lines[n] == Line(last + 16, seq(16, _ => 0), false)
       && lines[n + 1] == Line(last + 32, seq(16, _ => 0), true)
  }

  lemma LastLine(mem: nat -> nat, b: nat, idxs: seq<nat>)
    requires b > 0
    ensures var lines := Bursts(mem, b, idxs);
            idxs != [] ==> lines != [] && lines[|lines| - 1].addr == LastAddr(b, idxs)
  {
    if idxs != [] {
      var burst := Burst(mem, b, idxs[|idxs| - 1]);
      assert burst[b - 1].addr == LastAddr(b, idxs);
    }
  }

  /** `read_with_request`. */
  method ReadLines(mem: nat -> nat, b: nat, ghost idxs: seq<nat>, cmds: seq<Command>) returns (lines: seq<Line>)
    requires b > 0 && cmds == Commands(idxs)
    ensures lines == LineStream(mem, b, idxs)
    ensures Trailing(lines, idxs == [])
  {
    var lastAddr, n := 0, 0;
    lines := [];
    while !cmds[n].flag
      invariant n <= |idxs| && lines == Bursts(mem, b, idxs[..n]) && lastAddr == LastAddr(b, idxs[..n])
      decreases |idxs| - n
    {
      var address := cmds[n].idx * (16 * b);
      ghost var before := lines;
      for i := 0 to b
        invariant lines == before + Burst(mem, b, idxs[n])[..i]
        invariant lastAddr == if i == b then address + 16 * (b - 1) else LastAddr(b, idxs[..n])
      {
        assert Burst(mem, b, idxs[n])[..i + 1] == Burst(mem, b, idxs[n])[..i] + [Burst(mem, b, idxs[n])[i]];
        lines := lines + [Line(address + 16 * i, Words(mem, address + 16 * i), false)];
        if b - 1 == i {
          lastAddr := address + 16 * i;
        }
      }
      assert Burst(mem, b, idxs[n])[..b] == Burst(mem, b, idxs[n]);
      assert idxs[..n + 1][..n] == idxs[..n];
      n := n + 1;
    }
    assert idxs[..n] == idxs;
    LastLine(mem, b, idxs);
    lines := lines + [Line(lastAddr + 16, ZEROS, false)];
    lines := lines + [Line(lastAddr + 32, ZEROS, true)];
  }

  // ----- the line stream serves sorted lookups -----

  ghost predicate StrictlyIncreasing(s: seq<nat>) {
    forall i, j :: 0 <= i < j < |s| ==> s[i] < s[j]
  }

  /** Lines in order, aligned, none of them the last, each holding its words. */
  ghost predicate BurstLines(mem: nat -> nat, lines: seq<Line>, bound: nat) {
    && (forall i, j :: 0 <= i < j < |lines| ==> lines[i].addr < lines[j].addr)
    && (forall i :: 0 <= i < |lines| ==> lines[i].addr + 16 <= bound && lines[i].addr % 16 == 0 && !lines[i].last)
    && (forall i :: 0 <= i < |lines| ==> lines[i].data == Words(mem, lines[i].addr))
  }

  lemma BurstPlace(idx: nat, b: nat, i: nat)
    requires i < b
    ensures (idx * (16 * b) + 16 * i) % 16 == 0
    ensures idx * (16 * b) + 16 * i + 16 <= (idx + 1) * (16 * b)
  {
    assert idx * (16 * b) + 16 * i == 16 * (idx * b + i);
  }

  lemma BurstOrder(idx: nat, next: nat, b: nat)
    requires idx < next
    ensures (idx + 1) * (16 * b) <= next * (16 * b)
  {
  }

  /** The first address after a burst. */
  ghost function BurstEnd(b: nat, idxs: seq<nat>): nat {
    if idxs == [] then 0 else (idxs[|idxs| - 1] + 1) * (16 * b)
  }

  lemma BurstEndGrows(b: nat, idxs: seq<nat>)
    requires idxs != [] && StrictlyIncreasing(idxs)
    ensures BurstEnd(b, idxs[..|idxs| - 1]) <= idxs[|idxs| - 1] * (16 * b) <= BurstEnd(b, idxs)
  {
    if |idxs| > 1 {
      BurstOrder(idxs[|idxs| - 2], idxs[|idxs| - 1], b);
    }
  }

  lemma {:induction false} BurstsAreLines(mem: nat -> nat, b: nat, idxs: seq<nat>)
    requires b > 0 && StrictlyIncreasing(idxs)
    ensures BurstLines(mem, Bursts(mem, b, idxs), BurstEnd(b, idxs))
  {
    if idxs != [] {
      BurstsAreLines(mem, b, idxs[..|idxs| - 1]);
      LastBurst(mem, b, idxs);
    }
  }

  lemma LastBurst(mem: nat -> nat, b: nat, idxs: seq<nat>)
    requires b > 0 && StrictlyIncreasing(idxs) && idxs != []
    requires BurstLines(mem, Bursts(mem, b, idxs[..|idxs| - 1]), BurstEnd(b, idxs[..|idxs| - 1]))
    ensures BurstLines(mem, Bursts(mem, b, idxs), BurstEnd(b, idxs))
  {
    var front, idx := idxs[..|idxs| - 1], idxs[|idxs| - 1];
    BurstIsLines(mem, b, idx);
    BurstEndGrows(b, idxs);
    JoinLines(mem, Bursts(mem, b, front), Burst(mem, b, idx), BurstEnd(b, front), BurstEnd(b, idxs));
  }

  lemma BurstIsLines(mem: nat -> nat, b: nat, idx: nat)
    ensures BurstLines(mem, Burst(mem, b, idx), (idx + 1) * (16 * b))
    ensures forall i :: 0 <= i < b ==> idx * (16 * b) <= Burst(mem, b, idx)[i].addr
  {
    var lines := Burst(mem, b, idx);
    forall i | 0 <= i < b ensures lines[i].addr % 16 == 0 && lines[i].addr + 16 <= (idx + 1) * (16 * b) {
      BurstPlace(idx, b, i);
    }
  }

  lemma JoinLines(mem: nat -> nat, s: seq<Line>, t: seq<Line>, low: nat, high: nat)
    requires BurstLines(mem, s, low) && BurstLines(mem, t, high) && low <= high
    requires forall i :: 0 <= i < |t| ==> low <= t[i].addr
    ensures BurstLines(mem, s + t, high)
  {
  }

  lemma {:induction false} BurstsCover(mem: nat -> nat, b: nat, idxs: seq<nat>, idx: nat, i: nat)
    requires idx in idxs && i < b
    ensures exists j :: 0 <= j < |Bursts(mem, b, idxs)| && Bursts(mem, b, idxs)[j].addr == idx * (16 * b) + 16 * i
  {
    var front, last := idxs[..|idxs| - 1], idxs[|idxs| - 1];
    if idx == last {
      var j := |Bursts(mem, b, front)| + i;
      assert Bursts(mem, b, idxs)[j] == Burst(mem, b, last)[i];
    } else {
      BurstsCover(mem, b, front, idx, i);
      var j :| 0 <= j < |Bursts(mem, b, front)| && Bursts(mem, b, front)[j].addr == idx * (16 * b) + 16 * i;
      assert Bursts(mem, b, idxs)[j] == Bursts(mem, b, front)[j];
    }
  }

  /** The row of an id lies in its burst. */
  lemma RowInBurst(id: nat, b: nat) returns (i: nat)
    requires b > 0
    ensures i < b && RowBase(id) == (id / (16 * b)) * (16 * b) + 16 * i
  {
    var q, r := id / (16 * b), id % (16 * b);
    assert id == q * (16 * b) + r;
    assert q * (16 * b) == 16 * (q * b);
    i := r / 16;
  }

  // ----- bursts that follow each other -----

  ghost predicate Consecutive(idxs: seq<nat>) {
    forall k :: 0 <= k < |idxs| ==> idxs[k] == idxs[0] + k
  }

  lemma NextBurst(x: nat, b: nat, n: nat, i: nat)
    ensures (x + n) * (16 * b) + 16 * i == x * (16 * b) + 16 * (b * n + i)
  {
    assert (x + n) * (16 * b) == x * (16 * b) + n * (16 * b);
    assert n * (16 * b) == 16 * (b * n);
  }

  lemma {:induction false} BurstsAdjacent(mem: nat -> nat, b: nat, idxs: seq<nat>)
    requires b > 0 && Consecutive(idxs)
    ensures |Bursts(mem, b, idxs)| == b * |idxs|
    ensures forall k :: 0 <= k < b * |idxs| ==> Bursts(mem, b, idxs)[k].addr == idxs[0] * (16 * b) + 16 * k
  {
    if idxs != [] {
      var n := |idxs| - 1;
      var front := idxs[..n];
      BurstsAdjacent(mem, b, front);
      assert b * (n + 1) == b * n + b;
      forall k | 0 <= k < b * |idxs| ensures Bursts(mem, b, idxs)[k].addr == idxs[0] * (16 * b) + 16 * k {
        if k >= b * n {
          NextBurst(idxs[0], b, n, k - b * n);
          assert Bursts(mem, b, idxs)[k] == Burst(mem, b, idxs[n])[k - b * n];
        } else {
          assert n > 0 && Bursts(mem, b, idxs)[k] == Bursts(mem, b, front)[k];
        }
      }
    }
  }

  /** Then all lines that are sent follow each other, the two at the end as well. */
  lemma LinesAdjacent(mem: nat -> nat, b: nat, idxs: seq<nat>)
    requires b > 0 && Consecutive(idxs) && idxs != []
    ensures var lines := LineStream(mem, b, idxs);
            forall k :: 1 <= k < |lines| ==> lines[k].addr == lines[k - 1].addr + 16
  {
    BurstsAdjacent(mem, b, idxs);
    LastLine(mem, b, idxs);
  }
}
