/** One superstep's exchange of vertex properties: `readProp` on every node, the ring, and
    `writeProp` on every node, as the host starts them. */
module PropCopy {
  import opened Frames
  import opened RingNode
  import opened Ring
  import opened RingResults
  import opened ReadProp
  import opened WriteProp

  /** The host's view of a superstep: 512-bit words per partition, how many partitions, each
      node's schedule of them, each node's temporary property memory, and the undefined bits
      each `readProp` run starts from. */
  datatype Job = Job(words: nat, partitions: nat, schedule: seq<seq<nat>>, temp: seq<seq<nat>>, junk: seq<nat -> nat>)

  function Flatten(s: seq<seq<nat>>): seq<nat> {
    if s == [] then [] else Flatten(s[..|s| - 1]) + s[|s| - 1]
  }

  /** Every partition is on exactly one node's schedule, once. */
  ghost predicate ScheduledOnce(schedule: seq<seq<nat>>, partitions: nat) {
    multiset(Flatten(schedule)) == multiset(Range(partitions))
  }

  function Range(n: nat): (s: seq<nat>)
    ensures |s| == n && forall i :: 0 <= i < n ==> s[i] == i
  {
    seq(n, i => i)
  }

  ghost predicate ValidJob(j: Job) {
    && j.words > 0
    && 0 < |j.schedule| == |j.temp| == |j.junk| < 0x8000_0000
    && (forall k :: 0 <= k < |j.temp| ==> j.partitions * j.words <= |j.temp[k]| <= 0x8000_0000)
    && ScheduledOnce(j.schedule, j.partitions)
  }

  /** The partitions `s` lie inside a memory. */
  ghost predicate RangesFit(mem: seq<nat>, id: nat, words: nat, s: seq<nat>) {
    && words > 0 && |mem| <= 0x8000_0000 && id < 0x8000_0000
    && forall i :: 0 <= i < |s| ==> s[i] * words + words <= |mem|
  }

  /** What a node puts on its queue: the packets of each scheduled partition in turn. */
  ghost function NodeFrames(mem: seq<nat>, id: nat, words: nat, s: seq<nat>, junk: nat -> nat): seq<Frame>
    requires RangesFit(mem, id, words, s)
  {
    if s == [] then []
    else
      var front, p := s[..|s| - 1], s[|s| - 1];
      NodeFrames(mem, id, words, front, junk) + AllFrames(mem, id, 1, p * words, words, junk(|front|))
  }

  // ----- streams that meet between packets -----

  lemma LastOut(s: seq<Frame>, t: seq<Frame>)
    requires t != []
    ensures s + t == (s + t[..|t| - 1]) + [t[|t| - 1]]
  {
  }

  lemma {:induction false} JoinedAt(s: seq<Frame>, t: seq<Frame>)
    requires At(s).Boundary?
    ensures At(s + t) == At(t) && Partial(s + t) == Partial(t)
  {
    if t == [] {
      assert s + t == s;
      PartialHeader(s);
    } else {
      var front, f := t[..|t| - 1], t[|t| - 1];
      JoinedAt(s, front);
      LastOut(s, t);
      Snoc(s + front, f, 0);
    }
  }

  lemma {:induction false} JoinedSel(s: seq<Frame>, t: seq<Frame>, o: int)
    requires At(s).Boundary?
    ensures Sel(s + t, o) == Sel(s, o) + Sel(t, o)
  {
    if t == [] {
      assert s + t == s;
    } else {
      var front, f := t[..|t| - 1], t[|t| - 1];
      JoinedSel(s, front, o);
      JoinedAt(s, front);
      LastOut(s, t);
      Snoc(s + front, f, o);
    }
  }

  lemma {:induction false} JoinedPackets(s: seq<Frame>, t: seq<Frame>)
    requires At(s).Boundary?
    ensures Packets(s + t) == Packets(s) + Packets(t)
  {
    if t == [] {
      assert s + t == s;
    } else {
      var front, f := t[..|t| - 1], t[|t| - 1];
      JoinedPackets(s, front);
      JoinedAt(s, front);
      LastOut(s, t);
      Snoc(s + front, f, 0);
    }
  }

  lemma {:induction false} JoinedWrites(s: seq<Frame>, t: seq<Frame>)
    requires At(s).Boundary?
    ensures Writes(s + t) == Writes(s) + Writes(t)
  {
    if t == [] {
      assert s + t == s;
    } else {
      var front, f := t[..|t| - 1], t[|t| - 1];
      JoinedWrites(s, front);
      JoinedAt(s, front);
      SamePlaceSameWrite(s + front, front, f);
      LastOut(s, t);
      WritesSnoc(s + front, f);
    }
  }

  // ----- one partition -----

  ghost function Copies(mem: seq<nat>, start: nat, n: nat): (ws: seq<Write>)
    requires start + n <= |mem|
    ensures |ws| == n && forall i :: 0 <= i < n ==> ws[i] == Write(start + i, mem[start + i])
  {
    seq(n, i requires 0 <= i < n => Write(start + i, mem[start + i]))
  }

  /** What `writeProp` has made of the first `q` packets and `r` frames of a range. */
  ghost predicate Scanned(c: Scanner, mem: seq<nat>, start: nat, loopNum: nat, q: nat, r: nat)
    requires start + loopNum <= |mem|
  {
    var done := 22 * q + r == loopNum + PacketNum(loopNum);
    var n := 21 * q + if r == 0 then 0 else r - 1;
    && n <= loopNum
    && c.first == (r == 0 || done)
    && c.packets == (if r > 0 && done then q + 1 else q)
    && (r > 0 ==> c.address == start + 21 * q && c.offset == r - 1)
    && c.writes == Copies(mem, start, n)
  }

  lemma ScannedNext(c: Scanner, mem: seq<nat>, id: nat, start: nat, loopNum: nat, junk: nat, q: nat, r: nat)
    requires Fits(mem, id, start, loopNum) && Sends(loopNum, q, r) && Scanned(c, mem, start, loopNum, q, r)
    ensures var f := FrameAt(mem, id, 1, start, loopNum, junk, q, r);
            Scanned(Feed(c, f), mem, start, loopNum, if r == 21 then q + 1 else q, if r == 21 then 0 else r + 1)
  {
    SendsInRange(loopNum, q, r);
    if r == 0 {
      HeaderFields(if q == 0 then junk else mem[start + 21 * q - 1], start + 21 * q, id);
    } else {
      var n := 21 * q + r - 1;
      assert Copies(mem, start, n + 1) == Copies(mem, start, n) + [Write(start + n, mem[start + n])];
    }
  }

  lemma {:induction false} PropScan(mem: seq<nat>, id: nat, start: nat, loopNum: nat, junk: nat, q: nat, r: nat)
    requires Fits(mem, id, start, loopNum) && r < 22 && 22 * q + r <= loopNum + PacketNum(loopNum)
    ensures Scanned(Scan(PropFrames(mem, id, 1, start, loopNum, junk, q, r), 22 * q + r), mem, start, loopNum, q, r)
    decreases q, r
  {
    if q > 0 || r > 0 {
      var q', r' := if r > 0 then q else q - 1, if r > 0 then r - 1 else 21;
      var front := PropFrames(mem, id, 1, start, loopNum, junk, q', r');
      PropScan(mem, id, start, loopNum, junk, q', r');
      ScanAgrees(front, PropFrames(mem, id, 1, start, loopNum, junk, q, r), |front|);
      ScannedNext(Scan(front, |front|), mem, id, start, loopNum, junk, q', r');
    }
  }

  lemma LastFrame(loopNum: nat)
    requires loopNum > 0
    ensures var p, total := PacketNum(loopNum), loopNum + PacketNum(loopNum);
            && (total % 22 == 0 ==> 21 * (total / 22) == loopNum && total / 22 == p)
            && (total % 22 > 0 ==> 21 * (total / 22) + total % 22 - 1 == loopNum && total / 22 + 1 == p)
  {
  }

  lemma PartitionFramed(mem: seq<nat>, id: nat, start: nat, loopNum: nat, junk: nat)
    requires Fits(mem, id, start, loopNum)
    ensures FramedAs(AllFrames(mem, id, 1, start, loopNum, junk), id, Boundary, PacketNum(loopNum))
  {
    var total := loopNum + PacketNum(loopNum);
    LastFrame(loopNum);
    PropFraming(mem, id, start, loopNum, junk, total / 22, total % 22);
  }

  /** All words of the range have been written when the last frame is in. */
  lemma ScannedAll(c: Scanner, mem: seq<nat>, start: nat, loopNum: nat, q: nat, r: nat)
    requires loopNum > 0 && r < 22 && 22 * q + r == loopNum + PacketNum(loopNum) && start + loopNum <= |mem|
    requires Scanned(c, mem, start, loopNum, q, r)
    ensures c.writes == Copies(mem, start, loopNum)
  {
    LastFrame(loopNum);
    Divided(loopNum + PacketNum(loopNum), q, r);
  }

  /** `readProp` then `writeProp` copies the range. */
  lemma PartitionWrites(mem: seq<nat>, id: nat, start: nat, loopNum: nat, junk: nat)
    requires Fits(mem, id, start, loopNum)
    ensures Writes(AllFrames(mem, id, 1, start, loopNum, junk)) == Copies(mem, start, loopNum)
  {
    var total := loopNum + PacketNum(loopNum);
    var q, r := total / 22, total % 22;
    var frames := PropFrames(mem, id, 1, start, loopNum, junk, q, r);
    hide PropFrames, Scan, Scanned, Writes, Copies;
    PropScan(mem, id, start, loopNum, junk, q, r);
    ScannedAll(Scan(frames, total), mem, start, loopNum, q, r);
    ScanIsWrites(frames);
  }

  // ----- one node -----

  lemma NodeFramesSnoc(mem: seq<nat>, id: nat, words: nat, items: seq<nat>, p: nat, junk: nat -> nat)
    requires RangesFit(mem, id, words, items + [p])
    ensures RangesFit(mem, id, words, items) && Fits(mem, id, p * words, words)
    ensures NodeFrames(mem, id, words, items + [p], junk)
         == NodeFrames(mem, id, words, items, junk) + AllFrames(mem, id, 1, p * words, words, junk(|items|))
  {
    var all := items + [p];
    assert all[..|items|] == items && all[|items|] == p;
    assert forall i :: 0 <= i < |items| ==> items[i] == all[i];
  }

  lemma NothingFramed(mem: seq<nat>, id: nat, words: nat, junk: nat -> nat)
    requires RangesFit(mem, id, words, [])
    ensures FramedAs(NodeFrames(mem, id, words, [], junk), id, Boundary, 0)
  {
  }

  lemma {:induction false} NodeStream(mem: seq<nat>, id: nat, words: nat, s: seq<nat>, junk: nat -> nat)
    requires RangesFit(mem, id, words, s)
    ensures FramedAs(NodeFrames(mem, id, words, s, junk), id, Boundary, |s| * PacketNum(words))
  {
    hide *;
    if s == [] {
      NothingFramed(mem, id, words, junk);
    } else {
      var front, p := s[..|s| - 1], s[|s| - 1];
      assert s == front + [p];
      NodeFramesSnoc(mem, id, words, front, p, junk);
      NodeStream(mem, id, words, front, junk);
      PartitionFramed(mem, id, p * words, words, junk(|front|));
      FramedJoin(NodeFrames(mem, id, words, front, junk), AllFrames(mem, id, 1, p * words, words, junk(|front|)),
                 id, |front| * PacketNum(words), PacketNum(words));
      OneMore(|front|, PacketNum(words));
    }
  }

  lemma FramedJoin(s: seq<Frame>, t: seq<Frame>, id: int, m: nat, n: nat)
    requires FramedAs(s, id, Boundary, m) && FramedAs(t, id, Boundary, n)
    ensures FramedAs(s + t, id, Boundary, m + n)
  {
    JoinedAt(s, t);
    JoinedSel(s, t, id);
    JoinedPackets(s, t);
  }

  /** A node's packets write exactly the words of its scheduled partitions. */
  ghost predicate Writer(mem: seq<nat>, words: nat, s: seq<nat>, w: Write) {
    && 0 <= w.address < |mem| && w.value == mem[w.address]
    && exists p :: p in s && InSlot(p, words, w.address)
  }

  ghost predicate InSlot(p: nat, words: nat, a: int) {
    p * words <= a < p * words + words
  }

  lemma {:induction false} NodeAtBoundary(mem: seq<nat>, id: nat, words: nat, s: seq<nat>, junk: nat -> nat)
    requires RangesFit(mem, id, words, s)
    ensures At(NodeFrames(mem, id, words, s, junk)).Boundary?
  {
    NodeStream(mem, id, words, s, junk);
  }

  lemma NothingWritten(mem: seq<nat>, id: nat, words: nat, junk: nat -> nat, w: Write)
    requires RangesFit(mem, id, words, [])
    ensures w in Writes(NodeFrames(mem, id, words, [], junk)) <==> Writer(mem, words, [], w)
  {
  }

  lemma {:induction false} NodeWrites(mem: seq<nat>, id: nat, words: nat, s: seq<nat>, junk: nat -> nat, w: Write)
    requires RangesFit(mem, id, words, s)
    ensures w in Writes(NodeFrames(mem, id, words, s, junk)) <==> Writer(mem, words, s, w)
  {
    hide *;
    if s == [] {
      NothingWritten(mem, id, words, junk, w);
    } else {
      var front, p := s[..|s| - 1], s[|s| - 1];
      assert s == front + [p];
      NodeFramesSnoc(mem, id, words, front, p, junk);
      NodeAtBoundary(mem, id, words, front, junk);
      NodeWrites(mem, id, words, front, junk, w);
      PartitionWrites(mem, id, p * words, words, junk(|front|));
      JoinedWrites(NodeFrames(mem, id, words, front, junk), AllFrames(mem, id, 1, p * words, words, junk(|front|)));
      SlotMember(mem, id, p, words, w);
      WriterLast(mem, words, front, p, w);
    }
  }

  lemma WriterLast(mem: seq<nat>, words: nat, s: seq<nat>, p: nat, w: Write)
    ensures Writer(mem, words, s + [p], w) <==>
            Writer(mem, words, s, w) || (InSlot(p, words, w.address) && 0 <= w.address < |mem| && w.value == mem[w.address])
  {
    var t := s + [p];
    assert forall x :: x in t <==> x in s || x == p;
    assert p in t;
    forall x | x in t && InSlot(x, words, w.address) ensures x == p || (x in s && InSlot(x, words, w.address)) {
    }
  }

  lemma SlotMember(mem: seq<nat>, id: nat, p: nat, words: nat, w: Write)
    requires Fits(mem, id, p * words, words)
    ensures w in Copies(mem, p * words, words) <==> InSlot(p, words, w.address) && 0 <= w.address < |mem| && w.value == mem[w.address]
  {
    CopiesMember(mem, p * words, words, w);
  }

  lemma CopiesMember(mem: seq<nat>, start: nat, n: nat, w: Write)
    requires start + n <= |mem|
    ensures w in Copies(mem, start, n) <==> start <= w.address < start + n && w.value == mem[w.address]
  {
    if start <= w.address < start + n && w.value == mem[w.address] {
      assert Copies(mem, start, n)[w.address - start] == w;
    }
  }

  // ----- the schedule -----

  lemma {:induction false} FlattenHas(s: seq<seq<nat>>, k: nat)
    requires k < |s|
    ensures multiset(s[k]) <= multiset(Flatten(s))
  {
    if k < |s| - 1 {
      FlattenHas(s[..|s| - 1], k);
    }
  }

  lemma {:induction false} FlattenHasBoth(s: seq<seq<nat>>, j: nat, k: nat)
    requires j < k < |s|
    ensures multiset(s[j]) + multiset(s[k]) <= multiset(Flatten(s))
  {
    if k < |s| - 1 {
      FlattenHasBoth(s[..|s| - 1], j, k);
    } else {
      FlattenHas(s[..|s| - 1], j);
    }
  }

  lemma {:induction false} FlattenFrom(s: seq<seq<nat>>, p: nat)
    requires p in Flatten(s)
    ensures exists k :: 0 <= k < |s| && p in s[k]
  {
    var front := s[..|s| - 1];
    if p in Flatten(front) {
      FlattenFrom(front, p);
      var k :| 0 <= k < |front| && p in front[k];
      assert p in s[k];
    }
  }

  lemma {:induction false} RangeCounts(n: nat, p: nat)
    ensures multiset(Range(n))[p] == if p < n then 1 else 0
  {
    if n > 0 {
      RangeCounts(n - 1, p);
      assert Range(n) == Range(n - 1) + [n - 1];
    }
  }

  lemma ScheduledSomewhere(j: Job, p: nat)
    requires ValidJob(j) && p < j.partitions
    ensures exists k :: 0 <= k < |j.schedule| && p in j.schedule[k]
  {
    RangeCounts(j.partitions, p);
    assert p in multiset(Flatten(j.schedule));
    FlattenFrom(j.schedule, p);
  }

  lemma ScheduledNowhereElse(j: Job, p: nat, k: nat, l: nat)
    requires ValidJob(j) && k < |j.schedule| && l < |j.schedule| && p in j.schedule[k] && p in j.schedule[l]
    ensures k == l && p < j.partitions
  {
    RangeCounts(j.partitions, p);
    FlattenHas(j.schedule, k);
    assert p in multiset(j.schedule[k]) && p in multiset(j.schedule[l]);
    if k < l {
      FlattenHasBoth(j.schedule, k, l);
    } else if l < k {
      FlattenHasBoth(j.schedule, l, k);
    }
  }

  ghost function OwnerOf(j: Job, p: nat): (k: nat)
    requires ValidJob(j) && p < j.partitions
    ensures k < |j.schedule| && p in j.schedule[k]
  {
    ScheduledSomewhere(j, p);
    var k :| 0 <= k < |j.schedule| && p in j.schedule[k];
    k
  }

  lemma SlotFits(p: nat, words: nat, n: nat)
    requires p < n
    ensures p * words + words <= n * words
  {
    assert (p + 1) * words <= n * words;
  }

  lemma NodeFits(j: Job, k: nat)
    requires ValidJob(j) && k < |j.schedule|
    ensures RangesFit(j.temp[k], k, j.words, j.schedule[k])
  {
    forall i | 0 <= i < |j.schedule[k]| ensures j.schedule[k][i] * j.words + j.words <= |j.temp[k]| {
      var p := j.schedule[k][i];
      ScheduledNowhereElse(j, p, k, k);
      SlotFits(p, j.words, j.partitions);
    }
  }

  /** The ring as the host sets it up: node ids are ranks. */
  ghost function ConfigOf(j: Job): (c: Config)
    requires ValidJob(j)
    ensures |c.ids| == |c.own| == |j.schedule|
    ensures forall k :: 0 <= k < |c.ids| ==> c.ids[k] == k
    ensures forall k :: 0 <= k < |c.own| ==>
              RangesFit(j.temp[k], k, j.words, j.schedule[k])
              && c.own[k] == NodeFrames(j.temp[k], k, j.words, j.schedule[k], j.junk[k])
  {
    var n := |j.schedule|;
    assert forall k :: 0 <= k < n ==> RangesFit(j.temp[k], k, j.words, j.schedule[k]) by {
      forall k | 0 <= k < n ensures RangesFit(j.temp[k], k, j.words, j.schedule[k]) {
        NodeFits(j, k);
      }
    }
    Config(seq(n, k => k),
           seq(n, k requires 0 <= k < n && RangesFit(j.temp[k], k, j.words, j.schedule[k]) =>
             NodeFrames(j.temp[k], k, j.words, j.schedule[k], j.junk[k])))
  }

  lemma ConfigIsValid(j: Job)
    requires ValidJob(j)
    ensures ValidConfig(ConfigOf(j))
  {
    var c := ConfigOf(j);
    forall k | 0 <= k < |c.own| ensures OwnPackets(c.own[k], c.ids[k]) {
      NodeStream(j.temp[k], k, j.words, j.schedule[k], j.junk[k]);
    }
  }
}
