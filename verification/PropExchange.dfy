/** The result of a superstep's exchange: all nodes end with the same memory, and every
    `writeProp` stops exactly at the end of its stream. */
module PropExchange {
  import opened Frames
  import opened RingNode
  import opened Ring
  import opened RingResults
  import opened ReadProp
  import opened WriteProp
  import opened PropCopy
  import opened Sums

  /** Everything of everyone, each origin in its own order, mixed in any way. */
  ghost predicate HoldsAll(c: Config, u: seq<Frame>) {
    && At(u).Boundary? && Known(u, c.ids) && |c.ids| == |c.own|
    && forall k :: 0 <= k < |c.ids| ==> Sel(u, c.ids[k]) == c.own[k]
  }

  // ----- packets -----

  ghost predicate Headed(ps: seq<seq<Frame>>, ids: seq<int>) {
    forall i :: 0 <= i < |ps| ==> ps[i] != [] && NodeId(ps[i][0]) in ids
  }

  ghost function PacketShares(ps: seq<seq<Frame>>, ids: seq<int>): (t: seq<nat>)
    ensures |t| == |ids| && forall k :: 0 <= k < |t| ==> t[k] == |FromOrigin(ps, ids[k])|
  {
    seq(|ids|, k requires 0 <= k < |ids| => |FromOrigin(ps, ids[k])|)
  }

  /** One more packet is one more for its origin and for nobody else. */
  lemma PacketShare(ps: seq<seq<Frame>>, p: seq<Frame>, ids: seq<int>, k: nat)
    requires DistinctIds(ids) && k < |ids| && p != [] && ids[k] == NodeId(p[0])
    ensures Sum(PacketShares(ps + [p], ids)) == Sum(PacketShares(ps, ids)) + 1
  {
    hide FromOrigin, Sum;
    var t := PacketShares(ps, ids);
    forall j | 0 <= j < |ids| ensures |FromOrigin(ps + [p], ids[j])| == t[k := t[k] + 1][j] {
      FromOriginSnoc(ps, p, ids[j]);
    }
    assert PacketShares(ps + [p], ids) == t[k := t[k] + 1];
    SumUpdate(t, k, t[k] + 1);
  }

  lemma {:induction false} PacketsAddUp(ps: seq<seq<Frame>>, ids: seq<int>)
    requires DistinctIds(ids) && Headed(ps, ids)
    ensures Sum(PacketShares(ps, ids)) == |ps|
  {
    if ps == [] {
      SumZero(PacketShares(ps, ids));
    } else {
      var front, p := ps[..|ps| - 1], ps[|ps| - 1];
      PacketsAddUp(front, ids);
      assert ps == front + [p] && p == ps[|ps| - 1];
      var k :| 0 <= k < |ids| && ids[k] == NodeId(p[0]);
      PacketShare(front, p, ids, k);
    }
  }

  /** The header of a complete packet names an origin that shows up in the stream. */
  lemma {:induction false} PacketsHeaded(s: seq<Frame>, i: nat)
    requires i < |Packets(s)|
    ensures Packets(s)[i] != [] && Sel(s, NodeId(Packets(s)[i][0])) != []
  {
    var front, f := s[..|s| - 1], s[|s| - 1];
    PartialHeader(front);
    if i < |Packets(front)| {
      PacketsHeaded(front, i);
    }
  }

  ghost function Counts(schedule: seq<seq<nat>>, n: nat): (t: seq<nat>)
    ensures |t| == |schedule| && forall k :: 0 <= k < |t| ==> t[k] == |schedule[k]| * n
  {
    seq(|schedule|, k requires 0 <= k < |schedule| => |schedule[k]| * n)
  }

  lemma {:induction false} CountsAddUp(schedule: seq<seq<nat>>, n: nat)
    ensures Sum(Counts(schedule, n)) == |Flatten(schedule)| * n
  {
    if schedule != [] {
      var front, last := schedule[..|schedule| - 1], schedule[|schedule| - 1];
      CountsAddUp(front, n);
      assert Counts(schedule, n) == Counts(front, n) + [|last| * n];
      Distribute(|Flatten(front)|, |last|, n);
    }
  }

  lemma Distribute(a: nat, b: nat, n: nat)
    ensures (a + b) * n == a * n + b * n
  {
  }

  /** The host's packet count: the same expression for every node. */
  function HostPacketNum(partitions: nat, words: nat): nat {
    partitions * ((words + 20) / 21)
  }

  /** The host's packet count is the number of packets that reach every node. */
  lemma HostCountIsExact(j: Job, u: seq<Frame>)
    requires ValidJob(j) && HoldsAll(ConfigOf(j), u)
    ensures |Packets(u)| == HostPacketNum(j.partitions, j.words)
  {
    var c, n := ConfigOf(j), PacketNum(j.words);
    forall i | 0 <= i < |Packets(u)| ensures Packets(u)[i] != [] && NodeId(Packets(u)[i][0]) in c.ids {
      PacketsHeaded(u, i);
    }
    PacketsAddUp(Packets(u), c.ids);
    forall k | 0 <= k < |c.ids| ensures PacketShares(Packets(u), c.ids)[k] == |j.schedule[k]| * n {
      SelPackets(u, c.ids[k]);
      NodeStream(j.temp[k], k, j.words, j.schedule[k], j.junk[k]);
    }
    assert PacketShares(Packets(u), c.ids) == Counts(j.schedule, n);
    CountsAddUp(j.schedule, n);
    assert |multiset(Flatten(j.schedule))| == |multiset(Range(j.partitions))|;
  }

  // ----- memory -----

  /** The word at address `a` as the owner of partition `p` computed it. */
  ghost function Computed(j: Job, p: nat, a: nat): nat
    requires ValidJob(j) && p < j.partitions && a < j.partitions * j.words
  {
    var k := OwnerOf(j, p);
    assert j.partitions * j.words <= |j.temp[k]|;
    j.temp[k][a]
  }

  /** The property word that belongs at address `a`: the one its partition's node computed. */
  ghost function Value(j: Job, a: nat): nat
    requires ValidJob(j) && a < j.partitions * j.words
  {
    Computed(j, PartitionOf(a, j.words, j.partitions), a)
  }

  /** The partition an address belongs to. */
  ghost function PartitionOf(a: nat, words: nat, n: nat): (p: nat)
    requires words > 0 && a < n * words
    ensures p < n && p == a / words
  {
    SlotOf(a, words, n);
    a / words
  }

  lemma Monotone(m: nat, n: nat, words: nat)
    ensures m <= n ==> m * words <= n * words
  {
  }

  lemma SlotOf(a: nat, words: nat, n: nat)
    requires words > 0 && a < n * words
    ensures a / words < n && InSlot(a / words, words, a)
  {
    var p := a / words;
    assert a == p * words + a % words;
    Monotone(n, p, words);
  }

  lemma SlotIsUnique(p: nat, words: nat, a: nat)
    requires words > 0 && InSlot(p, words, a)
    ensures p == a / words
  {
    var q := a / words;
    assert a == q * words + a % words;
    Monotone(p + 1, q, words);
    Monotone(q + 1, p, words);
    OneMore(p, words);
    OneMore(q, words);
  }

  lemma UpdateWrites(j: Job, u: seq<Frame>, w: Write)
    requires ValidJob(j) && HoldsAll(ConfigOf(j), u)
    ensures w in Writes(u) <==> exists k :: 0 <= k < |j.schedule| && Writer(j.temp[k], j.words, j.schedule[k], w)
  {
    var c := ConfigOf(j);
    forall k | 0 <= k < |j.schedule|
      ensures Writer(j.temp[k], j.words, j.schedule[k], w) <==> w in Writes(Sel(u, c.ids[k]))
      ensures w in Writes(Sel(u, c.ids[k])) ==> w in Writes(u)
    {
      NodeWrites(j.temp[k], k, j.words, j.schedule[k], j.junk[k], w);
      SelWrites(u, c.ids[k], w);
    }
    if w in Writes(u) {
      SelWrites(u, 0, w);
      var x :| w in Writes(Sel(u, x));
      assert x in c.ids;
      assert Writer(j.temp[x], j.words, j.schedule[x], w);
    }
  }

  /** Each word of each partition is written, with its own value, and nothing else is. */
  lemma UpdateWritesValues(j: Job, u: seq<Frame>, w: Write)
    requires ValidJob(j) && HoldsAll(ConfigOf(j), u)
    ensures w in Writes(u) <==> 0 <= w.address < j.partitions * j.words && w.value == Value(j, w.address)
  {
    UpdateWrites(j, u, w);
    if w in Writes(u) {
      var k :| 0 <= k < |j.schedule| && Writer(j.temp[k], j.words, j.schedule[k], w);
      var p :| p in j.schedule[k] && InSlot(p, j.words, w.address);
      SlotIsUnique(p, j.words, w.address);
      ScheduledNowhereElse(j, p, k, k);
      SlotFits(p, j.words, j.partitions);
      ScheduledNowhereElse(j, p, k, OwnerOf(j, p));
    }
    if 0 <= w.address < j.partitions * j.words && w.value == Value(j, w.address) {
      SlotOf(w.address, j.words, j.partitions);
      var k := OwnerOf(j, w.address / j.words);
      assert Writer(j.temp[k], j.words, j.schedule[k], w);
    }
  }

  /** The memory a node must end with. */
  ghost predicate IsCopy(j: Job, before: seq<nat>, after: seq<nat>)
    requires ValidJob(j)
  {
    && |after| == |before|
    && forall a :: 0 <= a < |after| ==> after[a] == Expected(j, before, a)
  }

  ghost function Expected(j: Job, before: seq<nat>, a: nat): nat
    requires ValidJob(j) && a < |before|
  {
    if a < j.partitions * j.words then Value(j, a) else before[a]
  }

  lemma WordAfter(j: Job, u: seq<Frame>, before: seq<nat>, a: nat)
    requires ValidJob(j) && HoldsAll(ConfigOf(j), u) && a < |before|
    ensures Store(before, Writes(u))[a] == Expected(j, before, a)
  {
    var ws := Writes(u);
    forall v | v in ws && v.address == a
      ensures a < j.partitions * j.words && v.value == Value(j, a)
    {
      UpdateWritesValues(j, u, v);
    }
    StoreAgreeing(before, ws, a);
    if a < j.partitions * j.words {
      UpdateWritesValues(j, u, Write(a, Value(j, a)));
    }
  }

  lemma AnyOrderCopies(j: Job, u: seq<Frame>, before: seq<nat>)
    requires ValidJob(j) && HoldsAll(ConfigOf(j), u) && j.partitions * j.words <= |before|
    ensures IsCopy(j, before, Store(before, Writes(u)))
    ensures InRange(Writes(u), |before|)
  {
    forall w | w in Writes(u) ensures 0 <= w.address < |before| {
      UpdateWritesValues(j, u, w);
    }
    forall a | 0 <= a < |before| ensures Store(before, Writes(u))[a] == Expected(j, before, a) {
      WordAfter(j, u, before, a);
    }
  }

  /** When the ring has stopped, `writeProp` on any node can run: the host's packet count is
      there to be read and every write is inside the memory. */
  lemma WritePropCanRun(j: Job, run: seq<State>, i: nat, n: nat)
    requires ValidJob(j) && IsRun(ConfigOf(j), run) && Stuck(ConfigOf(j), run[|run| - 1])
    requires i < |j.schedule| && j.partitions * j.words <= n
    ensures i < |run[|run| - 1].port|
    ensures var u := run[|run| - 1].port[i].update;
            && Scan(u, |u|).packets == HostPacketNum(j.partitions, j.words)
            && InRange(Scan(u, |u|).writes, n)
            && HoldsAll(ConfigOf(j), u)
  {
    ConfigIsValid(j);
    StopsOnlyWhenDelivered(ConfigOf(j), run);
    var u := run[|run| - 1].port[i].update;
    assert Delivered(ConfigOf(j), run[|run| - 1], i);
    HostCountIsExact(j, u);
    WholeScan(u);
    AnyOrderCopies(j, u, seq(n, _ => 0));
  }

  /** `readProp`, the ring and `writeProp` compose to a copy.  Whatever the interleaving, a
      `writeProp` that has counted the host's number of packets has used up its stream, and
      its memory holds for every partition the words its scheduled node computed.  The right
      side does not mention the node, so all nodes agree. */
  lemma ExchangeIsACopy(j: Job, run: seq<State>, i: nat, before: seq<nat>, consumed: nat)
    requires ValidJob(j) && IsRun(ConfigOf(j), run) && Stuck(ConfigOf(j), run[|run| - 1])
    requires i < |j.schedule| == |run[|run| - 1].port| && j.partitions * j.words <= |before|
    requires var u := run[|run| - 1].port[i].update;
             && consumed <= |u| && Scan(u, consumed).first
             && Scan(u, consumed).packets == HostPacketNum(j.partitions, j.words)
    ensures var u := run[|run| - 1].port[i].update;
            && consumed == |u|
            && IsCopy(j, before, Store(before, Scan(u, consumed).writes))
  {
    var u := run[|run| - 1].port[i].update;
    WritePropCanRun(j, run, i, |before|);
    WholeScan(u);
    ScanMeaning(u, consumed);
    StopsAtTheEnd(u[..consumed], u);
    AnyOrderCopies(j, u, before);
  }
}
