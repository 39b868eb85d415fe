/** N copies of the ring kernel, each link a reliable FIFO from a node to the next.

    A link is kept as the log of everything written to it together with how much the next
    node has read, so its content is the unread rest.  A node may see any prefix of what
    is on its input link (frames take time to arrive) and any prefix of what is queued for
    it, so a run of this relation covers every timing. */
module Ring {
  import opened Frames
  import opened RingNode

  /** `own[k]` is every frame that the host ever has node `k` send. */
  datatype Config = Config(ids: seq<int>, own: seq<seq<Frame>>)

  /** One node: its registers, how much it took from vertexTrans and read from net_in, and
      everything it wrote to vertexUpdate. */
  datatype Port = Port(node: Node, taken: nat, read: nat, update: seq<Frame>)

  /** `wire[i]` is everything node `i` wrote to net_out. */
  datatype State = State(port: seq<Port>, wire: seq<seq<Frame>>)

  ghost predicate DistinctIds(ids: seq<int>) {
    && (forall k :: 0 <= k < |ids| ==> ids[k] >= 0)
    && (forall j, k :: 0 <= j < k < |ids| ==> ids[j] != ids[k])
  }

  /** The host's side: distinct ranks, and complete packets under each node's own rank. */
  ghost predicate ValidConfig(c: Config) {
    && |c.ids| == |c.own| > 0
    && DistinctIds(c.ids)
    && forall k :: 0 <= k < |c.own| ==> OwnPackets(c.own[k], c.ids[k])
  }

  ghost predicate OwnPackets(s: seq<Frame>, id: int) {
    Sel(s, id) == s && At(s).Boundary? && Normal(s)
  }

  /** The upper worker: 3 -> 0, 0 -> 1, ... */
  function Prev(i: nat, n: nat): (p: nat)
    requires i < n
  {
    if i == 0 then n - 1 else i - 1
  }

  ghost predicate Shaped(c: Config, r: State) {
    && |c.ids| == |c.own| == |r.port| == |r.wire|
    && forall i :: 0 <= i < |r.port| ==> r.port[i].taken <= |c.own[i]| && r.port[i].read <= |r.wire[Prev(i, |r.port|)]|
  }

  ghost function Input(r: State, i: nat): seq<Frame>
    requires i < |r.port| == |r.wire| && r.port[i].read <= |r.wire[Prev(i, |r.port|)]|
  {
    r.wire[Prev(i, |r.port|)][..r.port[i].read]
  }

  ghost function OnLink(r: State, i: nat): seq<Frame>
    requires i < |r.port| == |r.wire| && r.port[i].read <= |r.wire[Prev(i, |r.port|)]|
  {
    r.wire[Prev(i, |r.port|)][r.port[i].read..]
  }

  ghost function Queued(c: Config, r: State, i: nat): seq<Frame>
    requires Shaped(c, r) && i < |r.port|
  {
    c.own[i][r.port[i].taken..]
  }

  ghost function Sent(c: Config, r: State, i: nat): seq<Frame>
    requires Shaped(c, r) && i < |r.port|
  {
    c.own[i][..r.port[i].taken]
  }

  ghost function Initial(c: Config): State {
    State(seq(|c.ids|, _ => Port(RESET, 0, 0, [])), seq(|c.ids|, _ => []))
  }

  ghost function Apply(r: State, i: nat, e: Effect): State
    requires i < |r.port| == |r.wire|
  {
    var p := r.port[i];
    var p' := Port(e.node,
                   p.taken + if e.ownRead then 1 else 0,
                   p.read + if e.netRead then 1 else 0,
                   p.update + e.update);
    State(r.port[i := p'], r.wire[i := r.wire[i] + e.out])
  }

  /** What node `i` does when `vn` frames of its link have arrived and `vo` of its queue. */
  ghost function Doing(c: Config, r: State, i: nat, vn: nat, vo: nat): Effect
    requires Shaped(c, r) && i < |r.port| && vn <= |OnLink(r, i)| && vo <= |Queued(c, r, i)|
  {
    Iteration(r.port[i].node, OnLink(r, i)[..vn], Queued(c, r, i)[..vo])
  }

  ghost predicate StepOf(c: Config, r: State, r': State, i: nat, vn: nat, vo: nat) {
    && Shaped(c, r) && i < |r.port|
    && vn <= |OnLink(r, i)| && vo <= |Queued(c, r, i)|
    && r' == Apply(r, i, Doing(c, r, i, vn, vo))
  }

  ghost predicate Next(c: Config, r: State, r': State) {
    exists i: nat, vn: nat, vo: nat :: StepOf(c, r, r', i, vn, vo)
  }

  ghost predicate IsRun(c: Config, run: seq<State>) {
    && run != [] && run[0] == Initial(c)
    && forall t :: 0 <= t < |run| - 1 ==> Next(c, run[t], run[t + 1])
  }

  /** No node can do anything, whatever has arrived. */
  ghost predicate Stuck(c: Config, r: State) {
    && Shaped(c, r)
    && forall i, vn, vo :: 0 <= i < |r.port| && 0 <= vn <= |OnLink(r, i)| && 0 <= vo <= |Queued(c, r, i)| ==>
         Apply(r, i, Doing(c, r, i, vn, vo)) == r
  }

  // ----- the invariant -----

  ghost predicate NodeInv(c: Config, r: State, i: nat)
    requires Shaped(c, r) && i < |r.port|
  {
    Good(c.ids[i], c.ids, Input(r, i), r.wire[i], Sent(c, r, i), r.port[i].update, r.port[i].node)
  }

  ghost predicate Inv(c: Config, r: State) {
    && ValidConfig(c) && Shaped(c, r)
    && forall i :: 0 <= i < |r.port| ==> NodeInv(c, r, i)
  }

  // ----- once round the ring -----

  /** The node `d` places after `k`. */
  function Place(k: nat, d: nat, n: nat): (p: nat)
    requires k < n && d <= n
    ensures p < n
  {
    if k + d < n then k + d else k + d - n
  }

  /** However far round, what a node has read of origin `k` is a prefix of what `k` sent. */
  lemma {:induction false} Lap(c: Config, r: State, k: nat, d: nat)
    requires Inv(c, r) && k < |r.port| && 1 <= d <= |r.port|
    ensures var j := Place(k, d, |r.port|); Sel(Input(r, j), c.ids[k]) <= Sent(c, r, k)
  {
    var n := |r.port|;
    var j, p := Place(k, d, n), Place(k, d - 1, n);
    assert Prev(j, n) == p;
    SelPrefix(Input(r, j), r.wire[p], c.ids[k]);
    assert NodeInv(c, r, p);
    if d > 1 {
      Lap(c, r, k, d - 1);
      assert p != k;
    }
  }

  lemma ReadIsPrefixOfSent(c: Config, r: State, k: nat, j: nat)
    requires Inv(c, r) && k < |r.port| && j < |r.port|
    ensures Sel(Input(r, j), c.ids[k]) <= Sent(c, r, k)
  {
    var n := |r.port|;
    var d := if k < j then j - k else j + n - k;
    assert Place(k, d, n) == j;
    Lap(c, r, k, d);
  }

  /** The same for everything written to a link. */
  lemma WrittenIsPrefixOfSent(c: Config, r: State, k: nat, j: nat)
    requires Inv(c, r) && k < |r.port| && j < |r.port|
    ensures Sel(r.wire[j], c.ids[k]) <= Sent(c, r, k)
  {
    assert NodeInv(c, r, j);
    if j != k {
      ReadIsPrefixOfSent(c, r, k, j);
    }
  }

  // ----- preservation -----

  lemma InitialInv(c: Config)
    requires ValidConfig(c)
    ensures Inv(c, Initial(c))
  {
  }

  /** The next frame on a link belongs to one of the nodes. */
  lemma ArrivalIsKnown(c: Config, r: State, i: nat)
    requires Inv(c, r) && i < |r.port| && OnLink(r, i) != []
    ensures var f := OnLink(r, i)[0];
            && Forwarded(f) == f
            && OriginOf(At(Input(r, i)), f) in c.ids
            && (OriginOf(At(Input(r, i)), f) == c.ids[i] ==> Sent(c, r, i) != [])
  {
    var p := Prev(i, |r.port|);
    var f, inp := OnLink(r, i)[0], Input(r, i);
    var o := OriginOf(At(inp), f);
    assert NodeInv(c, r, p);
    assert f in r.wire[p];
    assert r.wire[p][..r.port[i].read + 1] == inp + [f];
    SelPrefix(inp + [f], r.wire[p], o);
    Snoc(inp, f, o);
    assert Sel(r.wire[p], o) != [];
    if o == c.ids[i] {
      WrittenIsPrefixOfSent(c, r, i, p);
    }
  }

  lemma OtherNodesKeep(c: Config, r: State, r': State, i: nat, vn: nat, vo: nat, j: nat)
    requires Inv(c, r) && StepOf(c, r, r', i, vn, vo) && Shaped(c, r')
    requires j < |r.port| && j != i
    ensures NodeInv(c, r', j)
  {
    assert NodeInv(c, r, j);
    assert Input(r', j) == Input(r, j);
  }

  lemma StepShaped(c: Config, r: State, r': State, i: nat, vn: nat, vo: nat)
    requires Inv(c, r) && StepOf(c, r, r', i, vn, vo)
    ensures Shaped(c, r')
  {
  }

  lemma InputAfter(r: State, i: nat, e: Effect)
    requires i < |r.port| == |r.wire| && r.port[i].read + (if e.netRead then 1 else 0) <= |r.wire[Prev(i, |r.port|)]|
    ensures var r' := Apply(r, i, e);
            && |r'.wire| == |r'.port| == |r.port|
            && r'.port[i].read <= |r'.wire[Prev(i, |r.port|)]|
            && Input(r', i) == if e.netRead then Input(r, i) + [OnLink(r, i)[0]] else Input(r, i)
  {
    var p, k := Prev(i, |r.port|), r.port[i].read;
    if e.netRead {
      assert r.wire[p][..k + 1] == r.wire[p][..k] + [r.wire[p][k]];
    }
  }

  lemma NetMoverKeeps(c: Config, r: State, r': State, i: nat, vn: nat, vo: nat)
    requires StepOf(c, r, r', i, vn, vo) && Shaped(c, r') && NodeInv(c, r, i)
    requires Doing(c, r, i, vn, vo).netRead
    requires var f, o := OnLink(r, i)[0], OriginOf(At(Input(r, i)), OnLink(r, i)[0]);
             Forwarded(f) == f && o in c.ids && o != -1 && (o == c.ids[i] ==> Sent(c, r, i) != [])
    ensures NodeInv(c, r', i)
  {
    var netIn, trans := OnLink(r, i)[..vn], Queued(c, r, i)[..vo];
    TakesNet(c.ids[i], c.ids, Input(r, i), r.wire[i], Sent(c, r, i), r.port[i].update, r.port[i].node, netIn, trans);
    InputAfter(r, i, Doing(c, r, i, vn, vo));
    assert Sent(c, r', i) == Sent(c, r, i);
  }

  lemma OwnMoverKeeps(c: Config, r: State, r': State, i: nat, vn: nat, vo: nat)
    requires StepOf(c, r, r', i, vn, vo) && Shaped(c, r') && NodeInv(c, r, i)
    requires Doing(c, r, i, vn, vo).ownRead && c.ids[i] in c.ids && OwnPackets(c.own[i], c.ids[i])
    ensures NodeInv(c, r', i)
  {
    var netIn, trans := OnLink(r, i)[..vn], Queued(c, r, i)[..vo];
    var f := trans[0];
    assert c.own[i][..r.port[i].taken + 1] == Sent(c, r, i) + [f];
    SelWhole(c.own[i], r.port[i].taken + 1, c.ids[i]);
    assert f in c.own[i];
    TakesOwn(c.ids[i], c.ids, Input(r, i), r.wire[i], Sent(c, r, i), r.port[i].update, r.port[i].node, netIn, trans);
    InputAfter(r, i, Doing(c, r, i, vn, vo));
    assert Sent(c, r', i) == Sent(c, r, i) + [f];
  }

  lemma MoverKeeps(c: Config, r: State, r': State, i: nat, vn: nat, vo: nat)
    requires Inv(c, r) && StepOf(c, r, r', i, vn, vo) && Shaped(c, r')
    ensures NodeInv(c, r', i)
  {
    var e := Doing(c, r, i, vn, vo);
    assert NodeInv(c, r, i);
    if e.netRead {
      ArrivalIsKnown(c, r, i);
      NetMoverKeeps(c, r, r', i, vn, vo);
    } else if e.ownRead {
      OwnMoverKeeps(c, r, r', i, vn, vo);
    } else {
      assert Input(r', i) == Input(r, i);
      assert Sent(c, r', i) == Sent(c, r, i);
      assert r'.wire[i] == r.wire[i] && r'.port[i].update == r.port[i].update;
    }
  }

  /** Every move of every node keeps the invariant. */
  lemma StepKeepsInv(c: Config, r: State, r': State)
    requires Inv(c, r) && Next(c, r, r')
    ensures Inv(c, r')
  {
    var i: nat, vn: nat, vo: nat :| StepOf(c, r, r', i, vn, vo);
    StepShaped(c, r, r', i, vn, vo);
    forall j | 0 <= j < |r'.port| ensures NodeInv(c, r', j) {
      if j == i {
        MoverKeeps(c, r, r', i, vn, vo);
      } else {
        OtherNodesKeep(c, r, r', i, vn, vo, j);
      }
    }
  }

  lemma {:induction false} RunKeepsInv(c: Config, run: seq<State>, t: nat)
    requires ValidConfig(c) && IsRun(c, run) && t < |run|
    ensures Inv(c, run[t])
  {
    if t == 0 {
      InitialInv(c);
    } else {
      RunKeepsInv(c, run, t - 1);
      assert Next(c, run[t - 1], run[t - 1 + 1]);
      StepKeepsInv(c, run[t - 1], run[t]);
    }
  }
}
