/** What every run of the ring achieves: delivery, credit, progress, termination. */
module RingResults {
  import opened Frames
  import opened RingNode
  import opened Ring
  import opened Sums

  // ----- links -----

  /** On every link, at every moment, the complete packets of each origin are that origin's
      own packets, whole, in the order it sends them, and nothing else travels. */
  lemma LinksCarryWholePackets(c: Config, run: seq<State>, t: nat, j: nat)
    requires ValidConfig(c) && IsRun(c, run) && t < |run| && j < |c.ids|
    ensures |run[t].wire| == |c.ids|
    ensures Known(run[t].wire[j], c.ids)
    ensures forall k :: 0 <= k < |c.ids| ==>
              FromOrigin(Packets(run[t].wire[j]), c.ids[k]) <= Packets(c.own[k])
  {
    RunKeepsInv(c, run, t);
    var r := run[t];
    assert NodeInv(c, r, j);
    forall k | 0 <= k < |c.ids| ensures FromOrigin(Packets(r.wire[j]), c.ids[k]) <= Packets(c.own[k]) {
      WrittenIsPrefixOfSent(c, r, k, j);
      SelPackets(r.wire[j], c.ids[k]);
      SelPrefix(Sel(r.wire[j], c.ids[k]), c.own[k], c.ids[k]);
    }
  }

  // ----- credit -----

  /** Packets of origin `o` whose header is on the link into node `i`. */
  ghost function HeadersOnLink(r: State, i: nat, o: int): int
    requires i < |r.port| == |r.wire| && r.port[i].read <= |r.wire[Prev(i, |r.port|)]|
  {
    Begun(r.wire[Prev(i, |r.port|)], o) - Begun(Input(r, i), o)
  }

  /** The same over the `d` links that follow node `k`. */
  ghost function InFlight(c: Config, r: State, k: nat, d: nat): int
    requires Shaped(c, r) && k < |r.port| && d <= |r.port|
  {
    if d == 0 then 0
    else InFlight(c, r, k, d - 1) + HeadersOnLink(r, Place(k, d, |r.port|), c.ids[k])
  }

  lemma OwnBegun(c: Config, r: State, k: nat)
    requires Inv(c, r) && k < |r.port|
    ensures Begun(r.wire[k], c.ids[k]) == Begun(Sent(c, r, k), c.ids[k])
  {
    assert NodeInv(c, r, k);
    SelBegun(r.wire[k], c.ids[k]);
  }

  lemma RelayedBegun(c: Config, r: State, k: nat, p: nat)
    requires Inv(c, r) && k < |r.port| && p < |r.port| && p != k
    ensures Begun(r.wire[p], c.ids[k]) == Begun(Input(r, p), c.ids[k])
  {
    assert NodeInv(c, r, p);
    SelBegun(r.wire[p], c.ids[k]);
    SelBegun(Input(r, p), c.ids[k]);
  }

  lemma {:induction false} InFlightTelescopes(c: Config, r: State, k: nat, d: nat)
    requires Inv(c, r) && k < |r.port| && 1 <= d <= |r.port|
    ensures InFlight(c, r, k, d) ==
            Begun(Sent(c, r, k), c.ids[k]) - Begun(Input(r, Place(k, d, |r.port|)), c.ids[k])
  {
    if d == 1 {
      OwnBegun(c, r, k);
    } else {
      InFlightTelescopes(c, r, k, d - 1);
      RelayedBegun(c, r, k, Place(k, d - 1, |r.port|));
    }
    assert Prev(Place(k, d, |r.port|), |r.port|) == Place(k, d - 1, |r.port|);
  }

  lemma HeadersNonNegative(c: Config, r: State, i: nat, o: int)
    requires Shaped(c, r) && i < |r.port|
    ensures HeadersOnLink(r, i, o) >= 0
  {
    SelPrefix(Input(r, i), r.wire[Prev(i, |r.port|)], o);
  }

  lemma {:induction false} InFlightGrows(c: Config, r: State, k: nat, d: nat, d': nat)
    requires Shaped(c, r) && k < |r.port| && d <= d' <= |r.port|
    ensures InFlight(c, r, k, d) <= InFlight(c, r, k, d')
    decreases d'
  {
    if d < d' {
      HeadersNonNegative(c, r, Place(k, d', |r.port|), c.ids[k]);
      InFlightGrows(c, r, k, d, d' - 1);
    }
  }

  lemma CreditIsInFlight(c: Config, r: State, k: nat)
    requires Inv(c, r) && k < |r.port|
    ensures r.port[k].node.credit == InFlight(c, r, k, |r.port|)
    ensures r.port[k].node.credit <= FIFO_LEN
  {
    assert NodeInv(c, r, k);
    InFlightTelescopes(c, r, k, |r.port|);
  }

  /** `write_read_num` is exactly the number of the node's own packets on the ring, counted
      over all links, and lies in 0..32; hence no link ever holds more than 32 packets of
      one origin. */
  lemma CreditCountsPacketsInFlight(c: Config, run: seq<State>, t: nat, k: nat)
    requires ValidConfig(c) && IsRun(c, run) && t < |run| && k < |c.ids|
    ensures Shaped(c, run[t])
    ensures run[t].port[k].node.credit == InFlight(c, run[t], k, |c.ids|)
    ensures 0 <= run[t].port[k].node.credit <= 32
    ensures forall d :: 1 <= d <= |c.ids| ==>
              0 <= HeadersOnLink(run[t], Place(k, d, |c.ids|), c.ids[k]) <= 32
  {
    RunKeepsInv(c, run, t);
    var r, n := run[t], |c.ids|;
    CreditIsInFlight(c, r, k);
    InFlightGrows(c, r, k, 0, n);
    forall d | 1 <= d <= n ensures 0 <= HeadersOnLink(r, Place(k, d, n), c.ids[k]) <= 32 {
      HeadersNonNegative(c, r, Place(k, d, n), c.ids[k]);
      InFlightGrows(c, r, k, 0, d - 1);
      InFlightGrows(c, r, k, d, n);
    }
  }

  // ----- progress and delivery -----

  lemma NetCanMove(c: Config, r: State, i: nat)
    requires Shaped(c, r) && i < |r.port| && OnLink(r, i) != [] && r.port[i].node.phase != OnlySend
    ensures Apply(r, i, Doing(c, r, i, 1, 0)) != r
  {
    assert Apply(r, i, Doing(c, r, i, 1, 0)).port[i].read == r.port[i].read + 1;
  }

  lemma OwnCanMove(c: Config, r: State, i: nat)
    requires Shaped(c, r) && i < |r.port| && Queued(c, r, i) != []
    requires r.port[i].node.phase == OnlySend || (r.port[i].node.phase == FirstFrame && r.port[i].node.credit < FIFO_LEN)
    ensures Apply(r, i, Doing(c, r, i, 0, 1)) != r
  {
    assert Apply(r, i, Doing(c, r, i, 0, 1)).port[i].taken == r.port[i].taken + 1;
  }

  lemma AllSent(c: Config, r: State, i: nat)
    requires Shaped(c, r) && i < |r.port|
    ensures Queued(c, r, i) == [] ==> Sent(c, r, i) == c.own[i]
  {
  }

  /** A node inside one of its own packets has the rest of it still queued. */
  lemma SenderHasMore(c: Config, r: State, i: nat)
    requires Inv(c, r) && i < |r.port| && r.port[i].node.phase == OnlySend
    ensures Queued(c, r, i) != []
  {
    assert NodeInv(c, r, i);
    assert OwnPackets(c.own[i], c.ids[i]);
    AllSent(c, r, i);
  }

  /** A node that cannot move waits for its link, or has no credit or nothing left to send. */
  lemma StuckNode(c: Config, r: State, i: nat)
    requires Inv(c, r) && Stuck(c, r) && i < |r.port|
    ensures OnLink(r, i) == [] && r.port[i].node.phase != OnlySend
    ensures r.port[i].node.phase == FirstFrame && r.port[i].node.credit < FIFO_LEN ==> Queued(c, r, i) == []
  {
    if r.port[i].node.phase == OnlySend {
      SenderHasMore(c, r, i);
      OwnCanMove(c, r, i);
      assert false;
    }
    if OnLink(r, i) != [] {
      NetCanMove(c, r, i);
      assert false;
    }
    if r.port[i].node.phase == FirstFrame && r.port[i].node.credit < FIFO_LEN && Queued(c, r, i) != [] {
      OwnCanMove(c, r, i);
      assert false;
    }
  }

  ghost predicate LinksEmpty(c: Config, r: State)
    requires Shaped(c, r)
  {
    forall i :: 0 <= i < |r.port| ==> OnLink(r, i) == []
  }

  lemma {:induction false} LapWhenEmpty(c: Config, r: State, k: nat, d: nat)
    requires Inv(c, r) && LinksEmpty(c, r) && k < |r.port| && 1 <= d <= |r.port|
    ensures Sel(Input(r, Place(k, d, |r.port|)), c.ids[k]) == Sent(c, r, k)
  {
    var n := |r.port|;
    var j, p := Place(k, d, n), Place(k, d - 1, n);
    assert OnLink(r, j) == [] && Prev(j, n) == p;
    assert Input(r, j) == r.wire[p];
    assert NodeInv(c, r, p);
    if d > 1 {
      LapWhenEmpty(c, r, k, d - 1);
      assert p != k;
    }
  }

  lemma AllReadWhenEmpty(c: Config, r: State, k: nat, j: nat)
    requires Inv(c, r) && LinksEmpty(c, r) && k < |r.port| && j < |r.port|
    ensures Sel(Input(r, j), c.ids[k]) == Sent(c, r, k)
  {
    var n := |r.port|;
    var d := if k < j then j - k else j + n - k;
    assert Place(k, d, n) == j;
    LapWhenEmpty(c, r, k, d);
  }

  /** With the links empty a node inside a packet from the ring would need that packet's
      origin to be still sending. */
  lemma StuckNodeIsBetweenPackets(c: Config, r: State, i: nat)
    requires Inv(c, r) && Stuck(c, r) && LinksEmpty(c, r) && i < |r.port|
    ensures r.port[i].node.phase == FirstFrame && r.port[i].node.credit == 0
  {
    assert NodeInv(c, r, i);
    StuckNode(c, r, i);
    if r.port[i].node.phase != FirstFrame {
      var x := At(Input(r, i)).origin;
      var p := Prev(i, |r.port|);
      assert NodeInv(c, r, p);
      assert OnLink(r, i) == [];
      assert Input(r, i) == r.wire[p];
      SelCursor(r.wire[p], x);
      assert x in c.ids;
      var k :| 0 <= k < |c.ids| && c.ids[k] == x;
      AllReadWhenEmpty(c, r, k, i);
      assert At(Sent(c, r, k)) == Inside(x);
      assert NodeInv(c, r, k);
      StuckNode(c, r, k);
      assert false;
    }
    AllReadWhenEmpty(c, r, i, i);
    SelBegun(Input(r, i), c.ids[i]);
  }

  /** Everything of everyone has reached node `i`. */
  ghost predicate Delivered(c: Config, r: State, i: nat)
    requires Shaped(c, r) && i < |r.port|
  {
    && At(r.port[i].update).Boundary?
    && Known(r.port[i].update, c.ids)
    && (forall k :: 0 <= k < |c.ids| ==> Sel(r.port[i].update, c.ids[k]) == c.own[k])
    && (forall k :: 0 <= k < |c.ids| ==> FromOrigin(Packets(r.port[i].update), c.ids[k]) == Packets(c.own[k]))
  }

  ghost predicate Quiescent(c: Config, r: State)
    requires Shaped(c, r)
  {
    && LinksEmpty(c, r)
    && forall i :: 0 <= i < |r.port| ==>
         Queued(c, r, i) == [] && r.port[i].node.phase == FirstFrame && r.port[i].node.credit == 0
  }

  lemma QuiescentIsDelivered(c: Config, r: State, i: nat)
    requires Inv(c, r) && Quiescent(c, r) && i < |r.port|
    ensures Delivered(c, r, i)
  {
    var p := Prev(i, |r.port|);
    assert NodeInv(c, r, i) && NodeInv(c, r, p);
    assert OnLink(r, i) == [];
    assert r.port[i].update == r.wire[p];
    forall k | 0 <= k < |c.ids|
      ensures Sel(r.port[i].update, c.ids[k]) == c.own[k]
      ensures FromOrigin(Packets(r.port[i].update), c.ids[k]) == Packets(c.own[k])
    {
      AllReadWhenEmpty(c, r, k, i);
      assert Queued(c, r, k) == [];
      assert Sent(c, r, k) == c.own[k];
      SelPackets(r.port[i].update, c.ids[k]);
    }
  }

  lemma StuckIsDelivered(c: Config, r: State)
    requires Inv(c, r) && Stuck(c, r)
    ensures Quiescent(c, r) && forall i :: 0 <= i < |r.port| ==> Delivered(c, r, i)
  {
    forall i | 0 <= i < |r.port| ensures OnLink(r, i) == [] {
      StuckNode(c, r, i);
    }
    forall i | 0 <= i < |r.port|
      ensures Queued(c, r, i) == [] && r.port[i].node.phase == FirstFrame && r.port[i].node.credit == 0
    {
      StuckNodeIsBetweenPackets(c, r, i);
      StuckNode(c, r, i);
    }
    forall i | 0 <= i < |r.port| ensures Delivered(c, r, i) {
      QuiescentIsDelivered(c, r, i);
    }
  }

  /** The ring never deadlocks: it stops only when every queue and every link is empty, and
      then every node's update stream holds every node's packets exactly once, whole, and
      in each origin's order. */
  lemma StopsOnlyWhenDelivered(c: Config, run: seq<State>)
    requires ValidConfig(c) && IsRun(c, run) && Stuck(c, run[|run| - 1])
    ensures var r := run[|run| - 1];
            Quiescent(c, r) && forall i :: 0 <= i < |r.port| ==> Delivered(c, r, i)
  {
    RunKeepsInv(c, run, |run| - 1);
    StuckIsDelivered(c, run[|run| - 1]);
  }

  // ----- termination -----

  ghost function Lengths(own: seq<seq<Frame>>): (s: seq<nat>)
    ensures |s| == |own| && forall k :: 0 <= k < |s| ==> s[k] == |own[k]|
  {
    seq(|own|, k requires 0 <= k < |own| => |own[k]|)
  }

  ghost function SelLengths(s: seq<Frame>, ids: seq<int>): (t: seq<nat>)
    ensures |t| == |ids| && forall k :: 0 <= k < |t| ==> t[k] == |Sel(s, ids[k])|
  {
    seq(|ids|, k requires 0 <= k < |ids| => |Sel(s, ids[k])|)
  }

  lemma {:induction false} SumZero(s: seq<nat>)
    requires forall k :: 0 <= k < |s| ==> s[k] == 0
    ensures Sum(s) == 0
  {
    if s != [] {
      SumZero(s[..|s| - 1]);
    }
  }

  lemma KnownPrefix(s: seq<Frame>, t: seq<Frame>, ids: seq<int>)
    requires s <= t && Known(t, ids)
    ensures Known(s, ids)
  {
    forall o | o !in ids ensures Sel(s, o) == [] {
      SelPrefix(s, t, o);
    }
  }

  /** One more frame is one more for its origin and for nobody else. */
  lemma ShareGrows(s: seq<Frame>, f: Frame, ids: seq<int>, k: nat)
    requires DistinctIds(ids) && k < |ids| && ids[k] == OriginOf(At(s), f)
    ensures Sum(SelLengths(s + [f], ids)) == Sum(SelLengths(s, ids)) + 1
  {
    var t := SelLengths(s, ids);
    forall j | 0 <= j < |ids| ensures |Sel(s + [f], ids[j])| == t[k := t[k] + 1][j] {
      Snoc(s, f, ids[j]);
    }
    assert SelLengths(s + [f], ids) == t[k := t[k] + 1];
    SumUpdate(t, k, t[k] + 1);
  }

  /** A stream of known origins is, in length, the sum of its origins' shares. */
  lemma {:induction false} SharesAddUp(s: seq<Frame>, ids: seq<int>)
    requires DistinctIds(ids) && Known(s, ids)
    ensures Sum(SelLengths(s, ids)) == |s|
  {
    if s == [] {
      SumZero(SelLengths(s, ids));
    } else {
      var front, f := s[..|s| - 1], s[|s| - 1];
      assert s == front + [f];
      KnownPrefix(front, s, ids);
      SharesAddUp(front, ids);
      var o := OriginOf(At(front), f);
      assert o in ids by {
        Snoc(front, f, o);
      }
      var k :| 0 <= k < |ids| && ids[k] == o;
      ShareGrows(front, f, ids, k);
    }
  }

  ghost function Taken(r: State): (s: seq<nat>)
    ensures |s| == |r.port| && forall i :: 0 <= i < |r.port| ==> s[i] == r.port[i].taken
  {
    seq(|r.port|, i requires 0 <= i < |r.port| => r.port[i].taken)
  }

  ghost function Read(r: State): (s: seq<nat>)
    ensures |s| == |r.port| && forall i :: 0 <= i < |r.port| ==> s[i] == r.port[i].read
  {
    seq(|r.port|, i requires 0 <= i < |r.port| => r.port[i].read)
  }

  /** Moves made so far. */
  ghost function Work(r: State): nat {
    Sum(Taken(r)) + Sum(Read(r))
  }

  ghost function Total(c: Config): nat {
    Sum(Lengths(c.own))
  }

  lemma ReadBound(c: Config, r: State, i: nat)
    requires Inv(c, r) && i < |r.port|
    ensures r.port[i].read <= Total(c)
  {
    var p := Prev(i, |r.port|);
    assert NodeInv(c, r, p);
    var s := Input(r, i);
    KnownPrefix(s, r.wire[p], c.ids);
    SharesAddUp(s, c.ids);
    forall k | 0 <= k < |c.ids| ensures SelLengths(s, c.ids)[k] <= Lengths(c.own)[k] {
      ReadIsPrefixOfSent(c, r, k, i);
    }
    SumBelow(SelLengths(s, c.ids), Lengths(c.own));
  }

  lemma OneMore(n: nat, t: nat)
    ensures (n + 1) * t == n * t + t
  {
  }

  lemma WorkBound(c: Config, r: State)
    requires Inv(c, r)
    ensures Work(r) <= (|c.ids| + 1) * Total(c)
    ensures Work(r) == (|c.ids| + 1) * Total(c) ==> Taken(r) == Lengths(c.own) && forall i :: 0 <= i < |r.port| ==> r.port[i].read == Total(c)
  {
    SumBelow(Taken(r), Lengths(c.own));
    forall i | 0 <= i < |r.port| ensures r.port[i].read <= Total(c) {
      ReadBound(c, r, i);
    }
    SumBound(Read(r), Total(c));
    OneMore(|c.ids|, Total(c));
  }

  lemma WorkAfter(r: State, i: nat, e: Effect)
    requires i < |r.port| == |r.wire|
    ensures Work(Apply(r, i, e)) == Work(r) + (if e.ownRead then 1 else 0) + (if e.netRead then 1 else 0)
  {
    var r' := Apply(r, i, e);
    assert Taken(r') == Taken(r)[i := r'.port[i].taken];
    assert Read(r') == Read(r)[i := r'.port[i].read];
    SumUpdate(Taken(r), i, r'.port[i].taken);
    SumUpdate(Read(r), i, r'.port[i].read);
  }

  lemma IdleAfter(r: State, i: nat, netIn: seq<Frame>, trans: seq<Frame>)
    requires i < |r.port| == |r.wire|
    ensures var e := Iteration(r.port[i].node, netIn, trans);
            && !(e.netRead && e.ownRead)
            && (!e.netRead && !e.ownRead ==> Apply(r, i, e) == r)
  {
    assert r.wire[i] + [] == r.wire[i] && r.port[i].update + [] == r.port[i].update;
  }

  /** A pass that changes anything moves exactly one frame. */
  lemma MoveIsOneUnit(c: Config, r: State, r': State)
    requires Next(c, r, r') && r != r'
    ensures Work(r') == Work(r) + 1
  {
    var i: nat, vn: nat, vo: nat :| StepOf(c, r, r', i, vn, vo);
    WorkAfter(r, i, Doing(c, r, i, vn, vo));
    IdleAfter(r, i, OnLink(r, i)[..vn], Queued(c, r, i)[..vo]);
  }

  /** Idle passes aside. */
  ghost predicate Moving(run: seq<State>) {
    forall t :: 0 <= t < |run| - 1 ==> run[t] != run[t + 1]
  }

  lemma {:induction false} RunWork(c: Config, run: seq<State>, t: nat)
    requires ValidConfig(c) && IsRun(c, run) && Moving(run) && t < |run|
    ensures Work(run[t]) == t
  {
    if t == 0 {
      SumZero(Taken(run[0]));
      SumZero(Read(run[0]));
    } else {
      RunWork(c, run, t - 1);
      RunKeepsInv(c, run, t - 1);
      assert run[t - 1] != run[t - 1 + 1] && Next(c, run[t - 1], run[t - 1 + 1]);
      MoveIsOneUnit(c, run[t - 1], run[t]);
    }
  }

  /** The most work there is, and that a ring stands still exactly when it is done. */
  lemma FullWorkIsStuck(c: Config, r: State)
    requires Inv(c, r)
    ensures Work(r) <= (|c.ids| + 1) * Total(c)
    ensures Work(r) == (|c.ids| + 1) * Total(c) <==> Stuck(c, r)
  {
    WorkBound(c, r);
    if Stuck(c, r) {
      StuckIsDelivered(c, r);
      QuiescentWork(c, r);
    }
    if Work(r) == (|c.ids| + 1) * Total(c) {
      forall i, vn, vo | 0 <= i < |r.port| && 0 <= vn <= |OnLink(r, i)| && 0 <= vo <= |Queued(c, r, i)|
        ensures Apply(r, i, Doing(c, r, i, vn, vo)) == r
      {
        var r' := Apply(r, i, Doing(c, r, i, vn, vo));
        if r' != r {
          assert StepOf(c, r, r', i, vn, vo);
          StepKeepsInv(c, r, r');
          MoveIsOneUnit(c, r, r');
          WorkBound(c, r');
        }
      }
    }
  }

  /** Every run ends: with N nodes and F frames to send, no run makes more than (N + 1) * F
      moves, and a run cannot be continued exactly when it has made that many. */
  lemma EveryRunEnds(c: Config, run: seq<State>)
    requires ValidConfig(c) && IsRun(c, run) && Moving(run)
    ensures |run| - 1 <= (|c.ids| + 1) * Total(c)
    ensures |run| - 1 == (|c.ids| + 1) * Total(c) <==> Stuck(c, run[|run| - 1])
  {
    RunKeepsInv(c, run, |run| - 1);
    RunWork(c, run, |run| - 1);
    FullWorkIsStuck(c, run[|run| - 1]);
  }

  lemma QuiescentWork(c: Config, r: State)
    requires Inv(c, r) && Quiescent(c, r)
    ensures Work(r) == (|c.ids| + 1) * Total(c)
  {
    forall k | 0 <= k < |c.own| ensures Taken(r)[k] == Lengths(c.own)[k] {
      assert Queued(c, r, k) == [];
    }
    assert Taken(r) == Lengths(c.own);
    forall i | 0 <= i < |r.port| ensures r.port[i].read == Total(c) {
      QuiescentIsDelivered(c, r, i);
      assert NodeInv(c, r, i);
      SharesAddUp(r.port[i].update, c.ids);
      assert SelLengths(r.port[i].update, c.ids) == Lengths(c.own);
    }
    SumBound(Read(r), Total(c));
    OneMore(|c.ids|, Total(c));
  }
}
