/** One ring node: the four-phase controller of `globalTrans`. */
module RingNode {
  import opened Frames

  /** Packets a node may have on the ring at once (`FIFO_len`). */
  const FIFO_LEN: int := 32

  datatype Phase = FirstFrame | RemainSame | RemainOther | OnlySend

  /** The registers of the kernel: `currentState`, `current_node_id`, `write_read_num`. */
  datatype Node = Node(phase: Phase, currentId: int, credit: int)

  const RESET: Node := Node(FirstFrame, -1, 0)

  /** What one pass through the kernel's loop does: the registers afterwards, whether a
      frame was taken from `net_in` or from `vertexTrans`, and what was written to
      `vertexUpdate` and to `net_out`. */
  datatype Effect = Effect(node: Node, netRead: bool, ownRead: bool, update: seq<Frame>, out: seq<Frame>)

  function Forwarded(f: Frame): Frame {
    f.(keep := -1, dest := 1)
  }

  /** One pass, given the frames visible on the two input streams. */
  function Iteration(n: Node, netIn: seq<Frame>, trans: seq<Frame>): Effect {
    match n.phase
    case FirstFrame =>
      if netIn != [] then
        if NodeId(netIn[0]) == n.currentId then
          Effect(Node(RemainSame, n.currentId, n.credit - 1), true, false, [netIn[0]], [])
        else
          Effect(n.(phase := RemainOther), true, false, [netIn[0]], [Forwarded(netIn[0])])
      else if trans != [] && n.credit < FIFO_LEN then
        Effect(Node(OnlySend, NodeId(trans[0]), n.credit + 1), false, true, [], [trans[0]])
      else
        Effect(n, false, false, [], [])
    case RemainSame =>
      if netIn != [] then
        Effect(n.(phase := if netIn[0].last then FirstFrame else RemainSame), true, false, [netIn[0]], [])
      else
        Effect(n, false, false, [], [])
    case RemainOther =>
      if netIn != [] then
        Effect(n.(phase := if netIn[0].last then FirstFrame else RemainOther), true, false,
               [netIn[0]], [Forwarded(netIn[0])])
      else
        Effect(n, false, false, [], [])
    case OnlySend =>
      if trans != [] then
        Effect(n.(phase := if trans[0].last then FirstFrame else OnlySend), false, true, [], [trans[0]])
      else
        Effect(n, false, false, [], [])
  }

  /** A stream between kernels: everything ever written, and how much of it was read. */
  class Stream {
    var written: seq<Frame>
    var taken: nat

    ghost predicate Valid()
      reads this
    {
      taken <= |written|
    }

    function Unread(): seq<Frame>
      reads this
      requires Valid()
    {
      written[taken..]
    }

    constructor ()
      ensures Valid() && written == [] && taken == 0
    {
      written, taken := [], 0;
    }

    method Write(f: Frame)
      requires Valid()
      modifies this
      ensures Valid() && written == old(written) + [f] && taken == old(taken)
    {
      written := written + [f];
    }

    method Read() returns (f: Frame)
      requires Valid() && Unread() != []
      modifies this
      ensures Valid() && written == old(written) && taken == old(taken) + 1
      ensures f == old(Unread())[0]
    {
      f := written[taken];
      taken := taken + 1;
    }
  }

  /** The kernel itself; `Iterate` is one pass of its endless loop. */
  class GlobalTrans {
    const vertexTrans: Stream
    const vertexUpdate: Stream
    const netIn: Stream
    const netOut: Stream

    var currentState: Phase
    var currentNodeId: int
    var writeReadNum: int

    ghost predicate Valid()
      reads this, vertexTrans, vertexUpdate, netIn, netOut
    {
      && vertexTrans != vertexUpdate && vertexTrans != netIn && vertexTrans != netOut
      && vertexUpdate != netIn && vertexUpdate != netOut && netIn != netOut
      && vertexTrans.Valid() && vertexUpdate.Valid() && netIn.Valid() && netOut.Valid()
    }

    ghost function Registers(): Node
      reads this
    {
      Node(currentState, currentNodeId, writeReadNum)
    }

    constructor (vertexTrans: Stream, vertexUpdate: Stream, netIn: Stream, netOut: Stream)
      requires vertexTrans != vertexUpdate && vertexTrans != netIn && vertexTrans != netOut
      requires vertexUpdate != netIn && vertexUpdate != netOut && netIn != netOut
      requires vertexTrans.Valid() && vertexUpdate.Valid() && netIn.Valid() && netOut.Valid()
      ensures Valid() && Registers() == RESET
      ensures this.vertexTrans == vertexTrans && this.vertexUpdate == vertexUpdate
      ensures this.netIn == netIn && this.netOut == netOut
    {
      this.vertexTrans, this.vertexUpdate := vertexTrans, vertexUpdate;
      this.netIn, this.netOut := netIn, netOut;
      currentState, currentNodeId, writeReadNum := FirstFrame, -1, 0;
    }

    method Iterate()
      requires Valid()
      modifies this, vertexTrans, vertexUpdate, netIn, netOut
      ensures Valid()
      ensures var e := old(Iteration(Registers(), netIn.Unread(), vertexTrans.Unread()));
              && Registers() == e.node
              && netIn.written == old(netIn.written)
              && netIn.taken == old(netIn.taken) + (if e.netRead then 1 else 0)
              && vertexTrans.written == old(vertexTrans.written)
              && vertexTrans.taken == old(vertexTrans.taken) + (if e.ownRead then 1 else 0)
              && vertexUpdate.written == old(vertexUpdate.written) + e.update
              && vertexUpdate.taken == old(vertexUpdate.taken)
              && netOut.written == old(netOut.written) + e.out
              && netOut.taken == old(netOut.taken)
      ensures old(!currentState.OnlySend? && netIn.Unread() != []) ==>
                netIn.taken == old(netIn.taken) + 1 && vertexTrans.taken == old(vertexTrans.taken)
      ensures old(currentState.FirstFrame? && netIn.Unread() == [] && vertexTrans.Unread() != []) ==>
                (vertexTrans.taken == old(vertexTrans.taken) + 1 <==> old(writeReadNum) < 32)
    {
      match currentState {
        case FirstFrame =>
          if netIn.Unread() != [] {
            var packetIn := netIn.Read();
            vertexUpdate.Write(packetIn);
            if NodeId(packetIn) == currentNodeId {
              writeReadNum := writeReadNum - 1;
              currentState := RemainSame;
            } else {
              netOut.Write(packetIn.(keep := -1, dest := 1));
              currentState := RemainOther;
            }
          } else if vertexTrans.Unread() != [] && writeReadNum < FIFO_LEN {
            var transPacket := vertexTrans.Read();
            currentNodeId := NodeId(transPacket);
            netOut.Write(transPacket);
            writeReadNum := writeReadNum + 1;
            currentState := OnlySend;
          }
        case RemainSame =>
          if netIn.Unread() != [] {
            var packetIn := netIn.Read();
            vertexUpdate.Write(packetIn);
            if packetIn.last {
              currentState := FirstFrame;
            }
          }
        case RemainOther =>
          if netIn.Unread() != [] {
            var packetIn := netIn.Read();
            vertexUpdate.Write(packetIn);
            netOut.Write(packetIn.(keep := -1, dest := 1));
            if packetIn.last {
              currentState := FirstFrame;
            }
          }
        case OnlySend =>
          if vertexTrans.Unread() != [] {
            var transPacket := vertexTrans.Read();
            netOut.Write(transPacket);
            if transPacket.last {
              currentState := FirstFrame;
            }
          }
      }
    }
  }

  ghost predicate Normal(s: seq<Frame>) {
    forall f :: f in s ==> Forwarded(f) == f
  }

  /** Only packets of the given nodes. */
  ghost predicate Known(s: seq<Frame>, ids: seq<int>) {
    forall o :: o !in ids ==> Sel(s, o) == []
  }

  lemma KnownSnoc(s: seq<Frame>, f: Frame, ids: seq<int>)
    requires Known(s, ids) && OriginOf(At(s), f) in ids
    ensures Known(s + [f], ids)
  {
    forall o | o !in ids ensures Sel(s + [f], o) == [] {
      Snoc(s, f, o);
    }
  }

  /** How a node's registers stand to the frames it has read from the ring (`inp`), written
      to the ring (`out`) and taken from its own queue (`own`). */
  ghost predicate NodeOk(id: int, inp: seq<Frame>, out: seq<Frame>, own: seq<Frame>, n: Node) {
    && Framing(id, inp, out, own, n.phase)
    && Relayed(id, inp, out)
    && Sel(out, id) == own
    && n.currentId == (if own == [] then -1 else id)
    && n.credit == Begun(own, id) - Begun(inp, id)
    && n.credit <= FIFO_LEN
  }

  ghost predicate Framing(id: int, inp: seq<Frame>, out: seq<Frame>, own: seq<Frame>, phase: Phase) {
    match phase
    case FirstFrame => At(inp).Boundary? && At(out).Boundary? && At(own).Boundary?
    case RemainSame => At(inp) == Inside(id) && At(out).Boundary? && At(own).Boundary?
    case RemainOther => At(inp).Inside? && At(inp).origin != id && At(out) == At(inp) && At(own).Boundary?
    case OnlySend => At(inp).Boundary? && At(out) == Inside(id) && At(own) == Inside(id)
  }

  /** Every other origin's frames leave as they came. */
  ghost predicate Relayed(id: int, inp: seq<Frame>, out: seq<Frame>) {
    forall o :: o != id ==> Sel(out, o) == Sel(inp, o)
  }

  lemma RelaysForwarded(id: int, inp: seq<Frame>, out: seq<Frame>, f: Frame)
    requires Relayed(id, inp, out)
    requires At(inp) == At(out) || OriginOf(At(inp), f) == id
    ensures OriginOf(At(inp), f) == id ==> Relayed(id, inp + [f], out)
    ensures At(inp) == At(out) ==> Relayed(id, inp + [f], out + [f])
  {
    forall o | o != id
      ensures OriginOf(At(inp), f) == id ==> Sel(inp + [f], o) == Sel(out, o)
      ensures At(inp) == At(out) ==> Sel(inp + [f], o) == Sel(out + [f], o)
    {
      Snoc(inp, f, o);
      Snoc(out, f, o);
    }
  }

  lemma RelaysOwn(id: int, inp: seq<Frame>, out: seq<Frame>, f: Frame)
    requires Relayed(id, inp, out) && OriginOf(At(out), f) == id
    ensures Relayed(id, inp, out + [f])
  {
    forall o | o != id ensures Sel(out + [f], o) == Sel(inp, o) {
      Snoc(out, f, o);
    }
  }

  /** Everything one node's history owes: the registers, and that the update stream is
      exactly what came from the ring. */
  ghost predicate Good(id: int, ids: seq<int>, inp: seq<Frame>, out: seq<Frame>, own: seq<Frame>, update: seq<Frame>, n: Node) {
    && NodeOk(id, inp, out, own, n)
    && update == inp
    && Normal(out)
    && Known(out, ids)
  }

  /** What a frame from the ring does to the phase and to the framing of both sides. */
  lemma FramingAfterNet(id: int, inp: seq<Frame>, out: seq<Frame>, own: seq<Frame>, n: Node, f: Frame, netIn: seq<Frame>, trans: seq<Frame>)
    requires Framing(id, inp, out, own, n.phase)
    requires n.phase != OnlySend && netIn != [] && netIn[0] == f && Forwarded(f) == f
    requires n.phase == FirstFrame ==> (NodeId(f) == id <==> NodeId(f) == n.currentId)
    ensures var e := Iteration(n, netIn, trans);
            && Framing(id, inp + [f], out + e.out, own, e.node.phase)
            && e.out == (if OriginOf(At(inp), f) == id then [] else [f])
            && (e.out != [] ==> At(inp) == At(out))
  {
    Snoc(inp, f, id);
    Snoc(out, f, id);
    assert out + [] == out;
  }

  lemma NodeTakesNet(id: int, inp: seq<Frame>, out: seq<Frame>, own: seq<Frame>, n: Node, f: Frame, netIn: seq<Frame>, trans: seq<Frame>)
    requires NodeOk(id, inp, out, own, n)
    requires n.phase != OnlySend && netIn != [] && netIn[0] == f && Forwarded(f) == f
    requires n.phase == FirstFrame ==> NodeId(f) != -1 && (NodeId(f) == id ==> own != [])
    ensures NodeOk(id, inp + [f], out + Iteration(n, netIn, trans).out, own, Iteration(n, netIn, trans).node)
  {
    var e := Iteration(n, netIn, trans);
    FramingAfterNet(id, inp, out, own, n, f, netIn, trans);
    RelaysForwarded(id, inp, out, f);
    assert out + [] == out;
    Snoc(inp, f, id);
    if e.out != [] {
      Snoc(out, f, id);
    }
  }

  lemma NodeTakesOwn(id: int, inp: seq<Frame>, out: seq<Frame>, own: seq<Frame>, n: Node, f: Frame, netIn: seq<Frame>, trans: seq<Frame>)
    requires NodeOk(id, inp, out, own, n)
    requires trans != [] && trans[0] == f && Sel(own + [f], id) == own + [f]
    requires n.phase == OnlySend || (n.phase == FirstFrame && netIn == [] && n.credit < FIFO_LEN)
    ensures NodeOk(id, inp, out + [f], own + [f], Iteration(n, netIn, trans).node)
  {
    SelLength(own, id);
    Snoc(own, f, id);
    Snoc(out, f, id);
    RelaysOwn(id, inp, out, f);
  }

  /** Taking a frame from the ring keeps a node good.  It recognises its own packets, which
      it must not send on, because it has sent one before any can come back. */
  lemma TakesNet(id: int, ids: seq<int>, inp: seq<Frame>, out: seq<Frame>, own: seq<Frame>, update: seq<Frame>, n: Node, netIn: seq<Frame>, trans: seq<Frame>)
    requires Good(id, ids, inp, out, own, update, n)
    requires n.phase != OnlySend && netIn != [] && Forwarded(netIn[0]) == netIn[0]
    requires OriginOf(At(inp), netIn[0]) in ids && OriginOf(At(inp), netIn[0]) != -1
    requires OriginOf(At(inp), netIn[0]) == id ==> own != []
    ensures var e := Iteration(n, netIn, trans);
            Good(id, ids, inp + [netIn[0]], out + e.out, own, update + e.update, e.node)
  {
    var e := Iteration(n, netIn, trans);
    NodeTakesNet(id, inp, out, own, n, netIn[0], netIn, trans);
    if e.out == [] {
      assert out + e.out == out;
    } else {
      KnownSnoc(out, netIn[0], ids);
    }
  }

  /** Taking a frame of its own keeps a node good. */
  lemma TakesOwn(id: int, ids: seq<int>, inp: seq<Frame>, out: seq<Frame>, own: seq<Frame>, update: seq<Frame>, n: Node, netIn: seq<Frame>, trans: seq<Frame>)
    requires Good(id, ids, inp, out, own, update, n) && id in ids
    requires trans != [] && Sel(own + [trans[0]], id) == own + [trans[0]] && Forwarded(trans[0]) == trans[0]
    requires n.phase == OnlySend || (n.phase == FirstFrame && netIn == [] && n.credit < FIFO_LEN)
    ensures var e := Iteration(n, netIn, trans);
            Good(id, ids, inp, out + e.out, own + [trans[0]], update + e.update, e.node)
  {
    var f := trans[0];
    NodeTakesOwn(id, inp, out, own, n, f, netIn, trans);
    SelLength(own, id);
    Snoc(own, f, id);
    KnownSnoc(out, f, ids);
    assert update + Iteration(n, netIn, trans).update == update;
  }
}
