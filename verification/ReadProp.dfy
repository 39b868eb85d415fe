/** `readProp`: cutting a vertex range into packets of one header and up to 21 data frames. */
module ReadProp {
  import opened Frames
  import opened RingNode

  /** 512-bit words holding `vertexNum` 32-bit properties. */
  function LoopNum(vertexNum: nat): nat
    requires vertexNum > 0
  {
    (vertexNum - 1) / 16 + 1
  }

  function PacketNum(loopNum: nat): nat {
    (loopNum + 21 - 1) / 21
  }

  ghost predicate Fits(mem: seq<nat>, id: nat, start: nat, loopNum: nat) {
    loopNum > 0 && start + loopNum <= |mem| <= 0x8000_0000 && id < 0x8000_0000
  }

  /** Frame `r` of packet `q`, counting the header as frame 0, is one that is sent. */
  predicate Sends(loopNum: nat, q: nat, r: nat) {
    r < 22 && 22 * q + r < loopNum + PacketNum(loopNum)
  }

  /** Every frame sent has its memory word, and the last one is not a header. */
  lemma SendsInRange(loopNum: nat, q: nat, r: nat)
    requires Sends(loopNum, q, r)
    ensures r == 0 ==> 21 * q < loopNum && 22 * q + 1 != loopNum + PacketNum(loopNum)
    ensures r > 0 ==> 21 * q + r - 1 < loopNum
  {
    var p := PacketNum(loopNum);
    assert 21 * p >= loopNum > 21 * (p - 1);
    assert q < p;
  }

  /** `out_raw.data` of a header keeps whatever the frame before left above its low 64 bits. */
  function HeaderRaw(previous: nat, address: nat, id: nat): nat {
    previous / WORD64 * WORD64 + address * WORD32 + id
  }

  ghost function FrameAt(mem: seq<nat>, id: nat, dest: int, start: nat, loopNum: nat, junk: nat, q: nat, r: nat): Frame
    requires Fits(mem, id, start, loopNum) && Sends(loopNum, q, r)
  {
    SendsInRange(loopNum, q, r);
    var raw := if r > 0 then mem[start + 21 * q + r - 1]
               else HeaderRaw(if q == 0 then junk else mem[start + 21 * q - 1], start + 21 * q, id);
    Frame(raw, r == 21 || 22 * q + r + 1 == loopNum + PacketNum(loopNum), -1, dest)
  }

  /** The first `q` packets and `r` frames of the next. */
  ghost function PropFrames(mem: seq<nat>, id: nat, dest: int, start: nat, loopNum: nat, junk: nat, q: nat, r: nat): (s: seq<Frame>)
    requires Fits(mem, id, start, loopNum) && r < 22 && 22 * q + r <= loopNum + PacketNum(loopNum)
    ensures |s| == 22 * q + r
    decreases q, r
  {
    if r > 0 then
      PropFrames(mem, id, dest, start, loopNum, junk, q, r - 1) + [FrameAt(mem, id, dest, start, loopNum, junk, q, r - 1)]
    else if q > 0 then
      PropFrames(mem, id, dest, start, loopNum, junk, q - 1, 21) + [FrameAt(mem, id, dest, start, loopNum, junk, q - 1, 21)]
    else
      []
  }

  /** All of them. */
  ghost function AllFrames(mem: seq<nat>, id: nat, dest: int, start: nat, loopNum: nat, junk: nat): seq<Frame>
    requires Fits(mem, id, start, loopNum)
  {
    var total := loopNum + PacketNum(loopNum);
    PropFrames(mem, id, dest, start, loopNum, junk, total / 22, total % 22)
  }

  lemma Divided(n: nat, q: nat, r: nat)
    requires n == 22 * q + r && r < 22
    ensures q == n / 22 && r == n % 22
  {
  }

  /** The next frame sent is one more packet frame, or the first of the next packet. */
  lemma PropFramesNext(mem: seq<nat>, id: nat, dest: int, start: nat, loopNum: nat, junk: nat, q: nat, r: nat)
    requires Fits(mem, id, start, loopNum) && Sends(loopNum, q, r)
    ensures PropFrames(mem, id, dest, start, loopNum, junk, if r == 21 then q + 1 else q, if r == 21 then 0 else r + 1)
         == PropFrames(mem, id, dest, start, loopNum, junk, q, r) + [FrameAt(mem, id, dest, start, loopNum, junk, q, r)]
  {
  }

  /** Frame `r` of packet `q`: the header, or the next memory word. */
  method NextFrame(mem: array<nat>, nodeId: nat, destId: int, startIdx: nat, loopNum: nat, ghost junk: nat, i: nat,
                   raw0: nat, address0: nat, frameId0: nat, ghost q: nat, ghost r: nat)
    returns (frame: Frame, raw: nat, address: nat, frameId: nat)
    requires Fits(mem[..], nodeId, startIdx, loopNum) && Sends(loopNum, q, r) && i == 22 * q + r
    requires frameId0 == r && address0 == 21 * q + (if r == 0 then 0 else r - 1)
    requires r == 0 ==> 21 * q <= loopNum && raw0 == if q == 0 then junk else mem[startIdx + 21 * q - 1]
    ensures frame == FrameAt(mem[..], nodeId, destId, startIdx, loopNum, junk, q, r)
    ensures i + 1 < loopNum + PacketNum(loopNum) ==> frameId == (if r == 21 then 0 else r + 1) && address == 21 * q + r
    ensures r == 21 ==> 21 * (q + 1) <= loopNum && raw == mem[startIdx + 21 * q + 20]
  {
    SendsInRange(loopNum, q, r);
    raw, address := raw0, address0;
    if frameId0 == 0 {
      raw := HeaderRaw(raw, startIdx + address, nodeId);
    } else {
      raw := mem[startIdx + address];
      address := address + 1;
    }
    var last := frameId0 == 21 || i + 1 == loopNum + PacketNum(loopNum);
    frameId := if last then 0 else frameId0 + 1;
    frame := Frame(raw, last, -1, destId);
  }

  method Read(mem: array<nat>, nodeId: nat, destId: int, vertexOffset: nat, vertexNum: nat, junk: nat)
    returns (vertexTrans: seq<Frame>)
    requires vertexNum > 0 && Fits(mem[..], nodeId, vertexOffset / 16, LoopNum(vertexNum))
    ensures vertexTrans == AllFrames(mem[..], nodeId, destId, vertexOffset / 16, LoopNum(vertexNum), junk)
  {
    var loopNum := (vertexNum - 1) / 16 + 1;
    var packetNum := (loopNum + 21 - 1) / 21;
    var startIdx := vertexOffset / 16;
    var raw := junk;
    var address, frameId: nat := 0, 0;
    ghost var q, r := 0, 0;
    vertexTrans := [];
    for i := 0 to loopNum + packetNum
      invariant i == 22 * q + r && r < 22
      invariant i < loopNum + packetNum ==> frameId == r && address == 21 * q + (if r == 0 then 0 else r - 1)
      invariant r == 0 ==> 21 * q <= loopNum && raw == if q == 0 then junk else mem[startIdx + 21 * q - 1]
      invariant vertexTrans == PropFrames(mem[..], nodeId, destId, startIdx, loopNum, junk, q, r)
    {
      PropFramesNext(mem[..], nodeId, destId, startIdx, loopNum, junk, q, r);
      var frame;
      frame, raw, address, frameId :=
        NextFrame(mem, nodeId, destId, startIdx, loopNum, junk, i, raw, address, frameId, q, r);
      vertexTrans := vertexTrans + [frame];
      q, r := if r == 21 then q + 1 else q, if r == 21 then 0 else r + 1;
    }
    Divided(loopNum + packetNum, q, r);
  }

  /** The header fields read back what was packed, whatever is above them. */
  lemma HeaderFields(previous: nat, address: nat, id: nat)
    requires address < 0x8000_0000 && id < 0x8000_0000
    ensures var x := HeaderRaw(previous, address, id);
            x % 0x1_0000_0000 == id && (x / 0x1_0000_0000) % 0x1_0000_0000 == address
  {
    var k := previous / WORD64;
    var x := k * WORD64 + address * WORD32 + id;
    assert x == (k * WORD32 + address) * WORD32 + id;
  }

  ghost predicate FramedAs(s: seq<Frame>, id: int, c: Cursor, packets: nat) {
    Sel(s, id) == s && At(s) == c && Normal(s) && |Packets(s)| == packets
  }

  lemma FramedSnoc(s: seq<Frame>, id: int, c: Cursor, packets: nat, f: Frame)
    requires FramedAs(s, id, c, packets) && (c == Inside(id) || (c == Boundary && NodeId(f) == id))
    requires f.keep == -1 && f.dest == 1
    ensures FramedAs(s + [f], id, After(c, f), packets + if After(c, f).Boundary? then 1 else 0)
  {
    Snoc(s, f, id);
  }

  /** Each packet is framed as one, under the sender's id. */
  lemma {:induction false} PropFraming(mem: seq<nat>, id: nat, start: nat, loopNum: nat, junk: nat, q: nat, r: nat)
    requires Fits(mem, id, start, loopNum) && r < 22 && 22 * q + r <= loopNum + PacketNum(loopNum)
    ensures var done := 22 * q + r == loopNum + PacketNum(loopNum);
            FramedAs(PropFrames(mem, id, 1, start, loopNum, junk, q, r), id,
                     if r == 0 || done then Boundary else Inside(id),
                     if r > 0 && done then q + 1 else q)
    decreases q, r
  {
    if q > 0 || r > 0 {
      var q', r' := if r > 0 then q else q - 1, if r > 0 then r - 1 else 21;
      var front := PropFrames(mem, id, 1, start, loopNum, junk, q', r');
      var f := FrameAt(mem, id, 1, start, loopNum, junk, q', r');
      PropFraming(mem, id, start, loopNum, junk, q', r');
      SendsInRange(loopNum, q', r');
      if r' == 0 {
        HeaderFields(if q' == 0 then junk else mem[start + 21 * q' - 1], start + 21 * q', id);
      }
      FramedSnoc(front, id, if r' == 0 then Boundary else Inside(id), q', f);
    }
  }
}
