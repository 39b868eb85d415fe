/** The exchange in any superstep: it begins in whatever state the last one left the ring, once
    every `writeProp` has stopped, and a `writeProp` may stop long before the ring does. */
module RingSupersteps {
  import opened Frames
  import opened RingNode
  import opened Ring
  import opened RingResults
  import opened WriteProp
  import opened PropCopy
  import opened PropExchange
  import opened Sums

  // ----- streams that follow each other -----

  /** After a packet boundary a stream reads as if it began there. */
  lemma Follows(s: seq<Frame>, v: seq<Frame>, o: int)
    requires At(s).Boundary?
    ensures At(s + v) == At(v) && Sel(s + v, o) == Sel(s, o) + Sel(v, o)
  {
    JoinedAt(s, v);
    JoinedSel(s, v, o);
  }

  lemma SomeOrigin(s: seq<Frame>) returns (o: int)
    requires s != []
    ensures Sel(s, o) != []
  {
    o := OriginOf(At(s[..|s| - 1]), s[|s| - 1]);
  }

  // ----- what comes after a rest -----

  /** What the nodes have sent up to one superstep, then what they send in the next. */
  ghost function Append(c: Config, d: Config): (r: Config)
    requires |c.own| == |d.own|
    ensures |r.own| == |c.own| && forall k :: 0 <= k < |r.own| ==> r.own[k] == c.own[k] + d.own[k]
  {
    Config(c.ids, seq(|c.own|, k requires 0 <= k < |c.own| => c.own[k] + d.own[k]))
  }

  lemma AppendIsValid(c: Config, d: Config)
    requires ValidConfig(c) && ValidConfig(d) && c.ids == d.ids
    ensures ValidConfig(Append(c, d))
  {
    forall k | 0 <= k < |c.own| ensures OwnPackets(c.own[k] + d.own[k], c.ids[k]) {
      assert OwnPackets(c.own[k], c.ids[k]) && OwnPackets(d.own[k], c.ids[k]);
      Follows(c.own[k], d.own[k], c.ids[k]);
    }
  }

  /** Every node has got everything. */
  ghost predicate AllHold(c: Config, r: State) {
    |r.port| == |c.ids| && forall i :: 0 <= i < |r.port| ==> HoldsAll(c, r.port[i].update)
  }

  ghost predicate Moves(c: Config, run: seq<State>) {
    run != [] && forall t :: 0 <= t < |run| - 1 ==> Next(c, run[t], run[t + 1])
  }

  /** One superstep: from a state in which all that was ever sent has got everywhere, though
      frames may still be on their way back to their senders, the ring goes on with what the
      nodes send next. */
  ghost predicate Superstep(c: Config, d: Config, run: seq<State>) {
    && ValidConfig(c) && ValidConfig(d) && c.ids == d.ids
    && Moves(Append(c, d), run) && Inv(c, run[0]) && AllHold(c, run[0])
  }

  lemma MoreToSend(c: Config, d: Config, r: State)
    requires Inv(c, r) && ValidConfig(d) && c.ids == d.ids
    ensures Inv(Append(c, d), r)
  {
    AppendIsValid(c, d);
    forall i | 0 <= i < |r.port| ensures NodeInv(Append(c, d), r, i) {
      assert NodeInv(c, r, i);
      assert Sent(Append(c, d), r, i) == Sent(c, r, i);
    }
  }

  lemma {:induction false} SuperstepKeepsInv(c: Config, d: Config, run: seq<State>, t: nat)
    requires Superstep(c, d, run) && t < |run|
    ensures Inv(Append(c, d), run[t])
  {
    if t == 0 {
      MoreToSend(c, d, run[0]);
    } else {
      SuperstepKeepsInv(c, d, run, t - 1);
      assert Next(Append(c, d), run[t - 1], run[t - 1 + 1]);
      StepKeepsInv(Append(c, d), run[t - 1], run[t]);
    }
  }

  /** Ranks, links and update streams of a step: nothing is taken back. */
  lemma StepGrows(c: Config, r: State, r': State, i: nat)
    requires Shaped(c, r) && Next(c, r, r') && i < |r.port|
    ensures |r'.port| == |r.port| && r.port[i].update <= r'.port[i].update
  {
    var n: nat, vn: nat, vo: nat :| StepOf(c, r, r', n, vn, vo);
  }

  lemma {:induction false} UpdateGrows(c: Config, d: Config, run: seq<State>, t: nat, i: nat)
    requires Superstep(c, d, run) && t < |run| && i < |c.ids|
    ensures |run[0].port| == |run[t].port| == |c.ids| && run[0].port[i].update <= run[t].port[i].update
  {
    SuperstepKeepsInv(c, d, run, t);
    if t > 0 {
      UpdateGrows(c, d, run, t - 1, i);
      SuperstepKeepsInv(c, d, run, t - 1);
      assert Next(Append(c, d), run[t - 1], run[t - 1 + 1]);
      StepGrows(Append(c, d), run[t - 1], run[t], i);
    }
  }

  /** What has reached node `i` since the superstep began. */
  ghost function Since(run: seq<State>, t: nat, i: nat): seq<Frame>
    requires t < |run| && i < |run[0].port| && i < |run[t].port|
  {
    if |run[0].port[i].update| <= |run[t].port[i].update| then run[t].port[i].update[|run[0].port[i].update|..] else []
  }

  /** What is known of a stream that goes on from the rest state's. */
  lemma GoneOn(c: Config, d: Config, u0: seq<Frame>, v: seq<Frame>, k: nat)
    requires ValidConfig(c) && ValidConfig(d) && c.ids == d.ids && k < |c.ids| && At(u0).Boundary?
    requires Sel(u0, c.ids[k]) == c.own[k] && Sel(u0 + v, c.ids[k]) <= c.own[k] + d.own[k]
    ensures Sel(v, c.ids[k]) <= d.own[k]
  {
    Follows(u0, v, c.ids[k]);
    PrefixOfRest(c.own[k], Sel(v, c.ids[k]), d.own[k]);
  }

  lemma NowSince(c: Config, d: Config, run: seq<State>, t: nat, i: nat)
    requires Superstep(c, d, run) && t < |run| && i < |c.ids|
    ensures |run[0].port| == |run[t].port| == |c.ids| && Inv(Append(c, d), run[t]) && HoldsAll(c, run[0].port[i].update)
    ensures run[t].port[i].update == run[0].port[i].update + Since(run, t, i) == Input(run[t], i)
  {
    UpdateGrows(c, d, run, t, i);
    SuperstepKeepsInv(c, d, run, t);
    assert HoldsAll(c, run[0].port[i].update);
    hide Superstep, HoldsAll, Append, NodeInv;
    UpdateIsInput(Append(c, d), run[t], i);
    PrefixAndRest(run[0].port[i].update, run[t].port[i].update);
  }

  lemma UpdateIsInput(c: Config, r: State, i: nat)
    requires Inv(c, r) && i < |r.port|
    ensures r.port[i].update == Input(r, i)
  {
    assert NodeInv(c, r, i);
  }

  lemma PrefixAndRest(u: seq<Frame>, v: seq<Frame>)
    requires u <= v
    ensures v == u + v[|u|..]
  {
  }

  /** Of every origin it is the beginning of what that node sends in this superstep. */
  lemma NewFrames(c: Config, d: Config, run: seq<State>, t: nat, i: nat)
    requires Superstep(c, d, run) && t < |run| && i < |c.ids|
    ensures |run[0].port| == |run[t].port| == |c.ids|
    ensures Known(Since(run, t, i), c.ids)
    ensures forall k :: 0 <= k < |c.ids| ==> Sel(Since(run, t, i), c.ids[k]) <= d.own[k]
  {
    NowSince(c, d, run, t, i);
    hide Superstep, Inv, NodeInv;
    var u0, v := run[0].port[i].update, Since(run, t, i);
    forall o | o !in c.ids ensures Sel(v, o) == [] {
      InputKnown(Append(c, d), run[t], i, o);
      Follows(u0, v, o);
    }
    forall k | 0 <= k < |c.ids| ensures Sel(v, c.ids[k]) <= d.own[k] {
      SentOf(Append(c, d), run[t], k, i);
      GoneOn(c, d, u0, v, k);
    }
  }

  lemma SentOf(c: Config, r: State, k: nat, i: nat)
    requires Inv(c, r) && k < |r.port| && i < |r.port|
    ensures Sel(Input(r, i), c.ids[k]) <= c.own[k]
  {
    ReadIsPrefixOfSent(c, r, k, i);
  }

  lemma PrefixOfRest(a: seq<Frame>, b: seq<Frame>, c: seq<Frame>)
    requires a + b <= a + c
    ensures b <= c
  {
    assert b == (a + b)[|a|..] && (a + c)[|a|..] == c;
  }

  /** No node reads frames of an origin that is not on the ring. */
  lemma InputKnown(c: Config, r: State, i: nat, o: int)
    requires Inv(c, r) && i < |r.port| && o !in c.ids
    ensures Sel(Input(r, i), o) == []
  {
    var p := Prev(i, |r.port|);
    assert NodeInv(c, r, p);
    SelPrefix(Input(r, i), r.wire[p], o);
  }

  // ----- the packet count tells everything -----

  /** A stream of nothing but this superstep's packets that has as many of them as the host
      counts holds them all. */
  lemma CountedIsAll(j: Job, w: seq<Frame>)
    requires ValidJob(j) && At(w).Boundary? && Known(w, ConfigOf(j).ids)
    requires forall k :: 0 <= k < |ConfigOf(j).ids| ==> Sel(w, ConfigOf(j).ids[k]) <= ConfigOf(j).own[k]
    requires |Packets(w)| == HostPacketNum(j.partitions, j.words)
    ensures HoldsAll(ConfigOf(j), w)
  {
    var c, n := ConfigOf(j), (j.words + 20) / 21;
    ConfigIsValid(j);
    var shares, counts := PacketShares(Packets(w), c.ids), Counts(j.schedule, n);
    SharesAddUp(j, w);
    forall k | 0 <= k < |c.ids| ensures shares[k] <= counts[k] { ShareIsPart(j, w, k); }
    SumBelow(shares, counts);
    forall k | 0 <= k < |c.ids| ensures Sel(w, c.ids[k]) == c.own[k] {
      ShareIsPart(j, w, k);
      assert OwnPackets(c.own[k], c.ids[k]);
      SelCursor(w, c.ids[k]);
      StopsAtTheEnd(Sel(w, c.ids[k]), c.own[k]);
    }
  }

  /** One origin's packets in the stream, against those it sends. */
  lemma ShareIsPart(j: Job, w: seq<Frame>, k: nat)
    requires ValidJob(j) && k < |ConfigOf(j).ids| && Sel(w, ConfigOf(j).ids[k]) <= ConfigOf(j).own[k]
    ensures var c := ConfigOf(j);
            && |Packets(Sel(w, c.ids[k]))| == |FromOrigin(Packets(w), c.ids[k])| <= |Packets(c.own[k])|
            && |Packets(c.own[k])| == Counts(j.schedule, (j.words + 20) / 21)[k]
  {
    var c := ConfigOf(j);
    SelPackets(w, c.ids[k]);
    PacketsPrefix(Sel(w, c.ids[k]), c.own[k]);
    NodeStream(j.temp[k], k, j.words, j.schedule[k], j.junk[k]);
  }

  lemma SharesAddUp(j: Job, w: seq<Frame>)
    requires ValidJob(j) && Known(w, ConfigOf(j).ids) && |Packets(w)| == HostPacketNum(j.partitions, j.words)
    ensures Sum(PacketShares(Packets(w), ConfigOf(j).ids)) == Sum(Counts(j.schedule, (j.words + 20) / 21))
  {
    var c, n := ConfigOf(j), (j.words + 20) / 21;
    forall i | 0 <= i < |Packets(w)| ensures Packets(w)[i] != [] && NodeId(Packets(w)[i][0]) in c.ids {
      PacketsHeaded(w, i);
    }
    PacketsAddUp(Packets(w), c.ids);
    CountsAddUp(j.schedule, n);
    assert |multiset(Flatten(j.schedule))| == |multiset(Range(j.partitions))|;
  }

  // ----- the copy -----

  lemma NothingIn(s: seq<Frame>)
    requires forall o :: Sel(s, o) == []
    ensures s == []
  {
    if s != [] { var o := SomeOrigin(s); }
  }

  /** Nothing can follow a stream that holds everything. */
  lemma NothingMore(j: Job, w: seq<Frame>, more: seq<Frame>)
    requires ValidJob(j) && HoldsAll(ConfigOf(j), w) && OnlyNew(j, w + more)
    ensures more == []
  {
    var c := ConfigOf(j);
    forall o ensures Sel(more, o) == [] {
      Follows(w, more, o);
      if o in c.ids {
        var k :| 0 <= k < |c.ids| && c.ids[k] == o;
        assert Sel(w, o) == c.own[k];
      }
    }
    NothingIn(more);
  }

  /** `writeProp` has counted the host's number of packets after `n` frames. */
  ghost predicate HasCounted(j: Job, v: seq<Frame>, n: nat) {
    n <= |v| && Scan(v, n).first && Scan(v, n).packets == HostPacketNum(j.partitions, j.words)
  }

  /** Only what this superstep's nodes send, each in order. */
  ghost predicate OnlyNew(j: Job, v: seq<Frame>)
    requires ValidJob(j)
  {
    && Known(v, ConfigOf(j).ids)
    && forall k :: 0 <= k < |ConfigOf(j).ids| ==> Sel(v, ConfigOf(j).ids[k]) <= ConfigOf(j).own[k]
  }

  lemma PartOnlyNew(j: Job, v: seq<Frame>, n: nat)
    requires ValidJob(j) && OnlyNew(j, v) && n <= |v|
    ensures OnlyNew(j, v[..n])
  {
    var c := ConfigOf(j);
    forall o | o !in c.ids ensures Sel(v[..n], o) == [] { SelPrefix(v[..n], v, o); }
    forall k | 0 <= k < |c.ids| ensures Sel(v[..n], c.ids[k]) <= c.own[k] { SelPrefix(v[..n], v, c.ids[k]); }
  }

  lemma PartCounted(j: Job, v: seq<Frame>, n: nat)
    requires ValidJob(j) && HasCounted(j, v, n) && OnlyNew(j, v)
    ensures n <= |v| && HoldsAll(ConfigOf(j), v[..n])
  {
    ScanMeaning(v, n);
    PartOnlyNew(j, v, n);
    hide Scan, HoldsAll;
    CountedIsAll(j, v[..n]);
  }

  lemma CountedUsesAll(j: Job, v: seq<Frame>, n: nat)
    requires ValidJob(j) && HasCounted(j, v, n) && OnlyNew(j, v)
    ensures n == |v| && HoldsAll(ConfigOf(j), v)
  {
    hide HasCounted, HoldsAll, OnlyNew;
    PartCounted(j, v, n);
    assert v == v[..n] + v[n..];
    NothingMore(j, v[..n], v[n..]);
    assert v == v[..n];
  }

  lemma CountedIsCopy(j: Job, v: seq<Frame>, n: nat, before: seq<nat>)
    requires ValidJob(j) && HasCounted(j, v, n) && OnlyNew(j, v) && j.partitions * j.words <= |before|
    ensures n == |v| && IsCopy(j, before, Store(before, Scan(v, n).writes))
  {
    CountedUsesAll(j, v, n);
    hide HoldsAll, OnlyNew, IsCopy, Scan, Writes, Store;
    WholeScan(v);
    AnyOrderCopies(j, v, before);
  }

  /** Any superstep, at any moment of it: a `writeProp` that has counted the host's number of
      packets, whether the ring is still running or not, has used up what has come, and its
      memory is the copy that every node gets. */
  lemma SuperstepIsACopy(c: Config, j: Job, run: seq<State>, t: nat, i: nat, before: seq<nat>, consumed: nat)
    requires ValidJob(j) && Superstep(c, ConfigOf(j), run) && t < |run| && i < |c.ids|
    requires j.partitions * j.words <= |before| && |run[0].port| == |run[t].port| == |c.ids|
    requires HasCounted(j, Since(run, t, i), consumed)
    ensures var v := Since(run, t, i);
            consumed == |v| && IsCopy(j, before, Store(before, Scan(v, consumed).writes))
  {
    NewFrames(c, ConfigOf(j), run, t, i);
    hide Superstep;
    CountedIsCopy(j, Since(run, t, i), consumed, before);
  }

  /** When all of them have stopped the next superstep can begin. */
  lemma NextCanBegin(c: Config, j: Job, run: seq<State>, t: nat, consumed: seq<nat>)
    requires ValidJob(j) && Superstep(c, ConfigOf(j), run) && t < |run| && |run[0].port| == |run[t].port| == |c.ids| == |consumed|
    requires forall i :: 0 <= i < |c.ids| ==> HasCounted(j, Since(run, t, i), consumed[i])
    ensures Inv(Append(c, ConfigOf(j)), run[t]) && AllHold(Append(c, ConfigOf(j)), run[t])
  {
    SuperstepKeepsInv(c, ConfigOf(j), run, t);
    forall i | 0 <= i < |c.ids| ensures HoldsAll(Append(c, ConfigOf(j)), run[t].port[i].update) {
      CountedHoldsAll(c, j, run, t, i, consumed[i]);
    }
  }

  lemma CountedHoldsAll(c: Config, j: Job, run: seq<State>, t: nat, i: nat, consumed: nat)
    requires ValidJob(j) && Superstep(c, ConfigOf(j), run) && t < |run| && i < |c.ids| == |run[0].port| == |run[t].port|
    requires HasCounted(j, Since(run, t, i), consumed)
    ensures HoldsAll(Append(c, ConfigOf(j)), run[t].port[i].update)
  {
    NewFrames(c, ConfigOf(j), run, t, i);
    NowSince(c, ConfigOf(j), run, t, i);
    hide Superstep, Inv, HasCounted;
    CountedUsesAll(j, Since(run, t, i), consumed);
    HoldsBoth(c, ConfigOf(j), run[0].port[i].update, Since(run, t, i));
  }

  lemma HoldsBoth(c: Config, d: Config, u: seq<Frame>, v: seq<Frame>)
    requires HoldsAll(c, u) && HoldsAll(d, v) && c.ids == d.ids
    ensures HoldsAll(Append(c, d), u + v)
  {
    Follows(u, v, 0);
    forall k | 0 <= k < |c.ids| ensures Sel(u + v, c.ids[k]) == c.own[k] + d.own[k] { Follows(u, v, c.ids[k]); }
    forall o | o !in c.ids ensures Sel(u + v, o) == [] { Follows(u, v, o); }
  }

  /** Nothing sent and nothing held: the first superstep begins at reset. */
  lemma FirstCanBegin(ids: seq<int>)
    requires ValidConfig(Config(ids, seq(|ids|, _ => [])))
    ensures var c := Config(ids, seq(|ids|, _ => [])); Inv(c, Initial(c)) && AllHold(c, Initial(c))
  {
    var c := Config(ids, seq(|ids|, _ => []));
    InitialInv(c);
    assert forall o :: Sel([], o) == [];
  }

  /** At rest, the new frames of every origin are all that it sent. */
  lemma RestFrames(c: Config, d: Config, run: seq<State>, i: nat)
    requires Superstep(c, d, run) && i < |c.ids| && Stuck(Append(c, d), run[|run| - 1])
    ensures |run[0].port| == |run[|run| - 1].port| == |c.ids|
    ensures HoldsAll(d, Since(run, |run| - 1, i))
  {
    var t := |run| - 1;
    var all := Append(c, d);
    NewFrames(c, d, run, t, i);
    NowSince(c, d, run, t, i);
    StuckIsDelivered(all, run[t]);
    var u0, u, v := run[0].port[i].update, run[t].port[i].update, Since(run, t, i);
    assert Delivered(all, run[t], i) && u == u0 + v;
    hide Superstep, Inv, Quiescent, Stuck;
    forall k | 0 <= k < |d.ids| ensures Sel(v, d.ids[k]) == d.own[k] {
      Follows(u0, v, d.ids[k]);
      assert c.own[k] + Sel(v, d.ids[k]) == c.own[k] + d.own[k];
      PrefixOfRest(c.own[k], Sel(v, d.ids[k]), d.own[k]);
      PrefixOfRest(c.own[k], d.own[k], Sel(v, d.ids[k]));
    }
    Follows(u0, v, 0);
  }

  ghost predicate ReadyFor(j: Job, v: seq<Frame>, n: nat) {
    HasCounted(j, v, |v|) && InRange(Scan(v, |v|).writes, n)
  }

  /** And every `writeProp` gets there: once the ring is at rest its stream holds the host's
      number of packets, and all writes are inside the memory. */
  lemma SuperstepCompletes(c: Config, j: Job, run: seq<State>, i: nat, n: nat)
    requires ValidJob(j) && Superstep(c, ConfigOf(j), run) && i < |c.ids|
    requires Stuck(Append(c, ConfigOf(j)), run[|run| - 1]) && j.partitions * j.words <= n
    ensures |run[0].port| == |run[|run| - 1].port| == |c.ids| && ReadyFor(j, Since(run, |run| - 1, i), n)
  {
    RestFrames(c, ConfigOf(j), run, i);
    hide Superstep, Stuck;
    var v := Since(run, |run| - 1, i);
    HostCountIsExact(j, v);
    WholeScan(v);
    AnyOrderCopies(j, v, seq(n, _ => 0));
  }

  // ----- how long it takes -----

  lemma {:induction false} WorkSince(c: Config, d: Config, run: seq<State>, t: nat)
    requires Superstep(c, d, run) && Moving(run) && t < |run|
    ensures Work(run[t]) == Work(run[0]) + t
  {
    if t > 0 {
      WorkSince(c, d, run, t - 1);
      SuperstepKeepsInv(c, d, run, t - 1);
      assert run[t - 1] != run[t - 1 + 1] && Next(Append(c, d), run[t - 1], run[t - 1 + 1]);
      MoveIsOneUnit(Append(c, d), run[t - 1], run[t]);
    }
  }

  /** No superstep goes on for ever: it makes the moves that are left, N + 1 for each frame ever
      sent less those already made, and comes to rest exactly then. */
  lemma SuperstepEnds(c: Config, d: Config, run: seq<State>)
    requires Superstep(c, d, run) && Moving(run)
    ensures var left := (|c.ids| + 1) * Total(Append(c, d)) - Work(run[0]);
            && |run| - 1 <= left
            && (|run| - 1 == left <==> Stuck(Append(c, d), run[|run| - 1]))
  {
    SuperstepKeepsInv(c, d, run, |run| - 1);
    WorkSince(c, d, run, |run| - 1);
    FullWorkIsStuck(Append(c, d), run[|run| - 1]);
  }
}
