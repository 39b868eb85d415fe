/**
 * One node's superstep as the host runs it (`acceleratorExecute`): while
 * `streamWrite` fills one partition of `propTemp`, `readProp` sends the one
 * before out of the same memory and `writeProp` stores what the ring delivers
 * into one of two buffers; the other one is what is computed from.
 */
module HostLoop {
  import opened Frames
  import opened ReadProp
  import opened WriteProp
  import opened PropCopy

  // What a kernel does next: a word comes out of gather and apply, `streamWrite`
  // stores one, `readProp` sends a frame, `writeProp` stores a word.
  datatype Turn = Produce | WriteWord | SendFrame | StoreWord(word: Write)

  // The writes of `writeProp` among some turns, in order.
  function StoresOf(turns: seq<Turn>): seq<Write> {
    if turns == [] then []
    else
      StoresOf(turns[..|turns| - 1])
      + (if turns[|turns| - 1].StoreWord? then [turns[|turns| - 1].word] else [])
  }

  ghost predicate StoresFit(turns: seq<Turn>, n: nat) {
    forall t :: t in turns && t.StoreWord? ==> 0 <= t.word.address < n
  }

  // What the host tells the kernels in one iteration.
  datatype Part = Part(fills: bool, fillStart: nat, sends: bool, sendStart: nat, words: nat, junk: nat)

  // Where the kernels are: the stream from apply to `streamWrite` with what has
  // gone in and out, and the registers of `readProp` with what it has sent.
  datatype Kernels = Kernels(stream: seq<nat>, produced: nat, written: nat,
                             frame: nat, raw: nat, address: nat, frameId: nat, sent: seq<Frame>)

  // The words `streamWrite` stores: whole bursts of 64, sixteen vertices a word.
  function BurstWords(vertexNum: nat): nat {
    64 * (vertexNum / 1024)
  }

  // They cover the range if and only if it is a multiple of 1024 vertices.
  lemma WholeBurstsIff(vertexNum: nat)
    ensures 16 * BurstWords(vertexNum) == vertexNum <==> vertexNum % 1024 == 0
  {
    assert vertexNum == 1024 * (vertexNum / 1024) + vertexNum % 1024;
  }

  ghost predicate PartFits(part: Part, n: nat, rank: nat) {
    && part.words > 0 && part.words % 64 == 0 && n <= 0x8000_0000 && rank < 0x8000_0000
    && (part.fills ==> part.fillStart + part.words <= n)
    && (part.sends ==> part.sendStart + part.words <= n)
    && (part.fills && part.sends ==>
          part.fillStart + part.words <= part.sendStart || part.sendStart + part.words <= part.fillStart)
  }

  // The memory with the first `n` words of a range computed from `b`.
  ghost function Overwritten(t0: seq<nat>, start: nat, n: nat, b: seq<nat>, compute: (seq<nat>, nat) -> nat): (t: seq<nat>)
    ensures |t| == |t0|
    ensures forall a :: 0 <= a < |t0| ==> t[a] == if start <= a < start + n then compute(b, a) else t0[a]
  {
    seq(|t0|, a requires 0 <= a < |t0| => if start <= a < start + n then compute(b, a) else t0[a])
  }

  ghost predicate StreamOk(k: Kernels, part: Part, b: seq<nat>, compute: (seq<nat>, nat) -> nat) {
    && k.written <= k.produced <= (if part.fills then part.words else 0)
    && |k.stream| == k.produced - k.written
    && forall x :: 0 <= x < |k.stream| ==> k.stream[x] == compute(b, part.fillStart + k.written + x)
  }

  function FrameCount(part: Part): nat {
    if part.sends then part.words + PacketNum(part.words) else 0
  }

  // `readProp` has sent the first frames of its partition as it stood when the
  // iteration began.
  ghost predicate SendOk(k: Kernels, part: Part, t0: seq<nat>, rank: nat) {
    && k.frame <= FrameCount(part)
    && (part.sends ==>
          && Fits(t0, rank, part.sendStart, part.words)
          && k.sent == PropFrames(t0, rank, 1, part.sendStart, part.words, part.junk, k.frame / 22, k.frame % 22)
          && (k.frame < FrameCount(part) ==> RegistersOk(k, part, t0)))
    && (!part.sends ==> k.sent == [])
  }

  ghost predicate RegistersOk(k: Kernels, part: Part, t0: seq<nat>) {
    var q, r := k.frame / 22, k.frame % 22;
    && k.frameId == r && k.address == 21 * q + (if r == 0 then 0 else r - 1)
    && (r == 0 ==> 21 * q <= part.words
                   && (q == 0 ==> k.raw == part.junk)
                   && (q > 0 ==> part.sendStart + 21 * q - 1 < |t0| && k.raw == t0[part.sendStart + 21 * q - 1]))
  }

  // What an iteration has made of the temporary memory `t0` when it is `t`.
  ghost predicate UnderWay(t: seq<nat>, k: Kernels, part: Part, t0: seq<nat>, rank: nat, b: seq<nat>, compute: (seq<nat>, nat) -> nat) {
    && PartFits(part, |t0|, rank)
    && t == Overwritten(t0, part.fillStart, k.written, b, compute)
    && StreamOk(k, part, b, compute)
    && SendOk(k, part, t0, rank)
  }

  // ----- single steps -----

  lemma OverwrittenNext(t0: seq<nat>, start: nat, n: nat, b: seq<nat>, compute: (seq<nat>, nat) -> nat)
    requires start + n < |t0|
    ensures Overwritten(t0, start, n, b, compute)[start + n := compute(b, start + n)] == Overwritten(t0, start, n + 1, b, compute)
  {
  }

  lemma StreamProduced(k: Kernels, part: Part, b: seq<nat>, compute: (seq<nat>, nat) -> nat)
    requires StreamOk(k, part, b, compute) && part.fills && k.produced < part.words
    ensures StreamOk(k.(stream := k.stream + [compute(b, part.fillStart + k.produced)], produced := k.produced + 1), part, b, compute)
  {
  }

  lemma StreamWritten(k: Kernels, part: Part, b: seq<nat>, compute: (seq<nat>, nat) -> nat)
    requires StreamOk(k, part, b, compute) && k.stream != []
    ensures k.stream[0] == compute(b, part.fillStart + k.written) && part.fills && k.written < part.words
    ensures StreamOk(k.(stream := k.stream[1..], written := k.written + 1), part, b, compute)
  {
  }

  lemma StreamApart(k: Kernels, k': Kernels, part: Part, b: seq<nat>, compute: (seq<nat>, nat) -> nat)
    requires StreamOk(k, part, b, compute) && k'.stream == k.stream && k'.produced == k.produced && k'.written == k.written
    ensures StreamOk(k', part, b, compute)
  {
  }

  lemma OneProduced(t: seq<nat>, k: Kernels, part: Part, t0: seq<nat>, rank: nat, b: seq<nat>, compute: (seq<nat>, nat) -> nat)
    requires UnderWay(t, k, part, t0, rank, b, compute) && part.fills && k.produced < part.words
    ensures UnderWay(t, k.(stream := k.stream + [compute(b, part.fillStart + k.produced)], produced := k.produced + 1),
                     part, t0, rank, b, compute)
  {
    StreamProduced(k, part, b, compute);
    hide StreamOk, PropFrames, RegistersOk, Overwritten, PartFits;
  }

  lemma OneWritten(t: seq<nat>, k: Kernels, part: Part, t0: seq<nat>, rank: nat, b: seq<nat>, compute: (seq<nat>, nat) -> nat)
    requires UnderWay(t, k, part, t0, rank, b, compute) && k.stream != []
    ensures part.fillStart + k.written < |t| == |t0|
    ensures UnderWay(t[part.fillStart + k.written := k.stream[0]], k.(stream := k.stream[1..], written := k.written + 1),
                     part, t0, rank, b, compute)
  {
    StreamWritten(k, part, b, compute);
    OverwrittenNext(t0, part.fillStart, k.written, b, compute);
    hide StreamOk, PropFrames, RegistersOk, Overwritten;
  }

  // What `readProp` is about to read is as it was when the iteration began.
  lemma AboutToSend(t: seq<nat>, k: Kernels, part: Part, t0: seq<nat>, rank: nat, b: seq<nat>, compute: (seq<nat>, nat) -> nat)
    requires UnderWay(t, k, part, t0, rank, b, compute) && k.frame < FrameCount(part)
    ensures part.sends && Sends(part.words, k.frame / 22, k.frame % 22)
    ensures SameRange(t, t0, part.sendStart, part.words) && Fits(t, rank, part.sendStart, part.words)
    ensures RegistersOk(k, part, t0)
  {
    hide PropFrames, RegistersOk;
  }

  // The frame that `NextFrame` makes is the next one of the partition, and the
  // registers it leaves are those for the one after.
  lemma FrameSent(k: Kernels, k': Kernels, part: Part, t0: seq<nat>, rank: nat)
    requires part.sends && k.frame < FrameCount(part) && SendOk(k, part, t0, rank)
    requires k'.frame == k.frame + 1
    requires Sends(part.words, k.frame / 22, k.frame % 22)
    requires k'.sent == k.sent + [FrameAt(t0, rank, 1, part.sendStart, part.words, part.junk, k.frame / 22, k.frame % 22)]
    requires k'.frame < FrameCount(part) ==>
               k'.frameId == (if k.frame % 22 == 21 then 0 else k.frame % 22 + 1) && k'.address == 21 * (k.frame / 22) + k.frame % 22
    requires k.frame % 22 == 21 ==> 21 * (k.frame / 22 + 1) <= part.words && k'.raw == t0[part.sendStart + 21 * (k.frame / 22) + 20]
    ensures SendOk(k', part, t0, rank)
  {
    var q, r := k.frame / 22, k.frame % 22;
    PropFramesNext(t0, rank, 1, part.sendStart, part.words, part.junk, q, r);
    var q', r' := if r == 21 then q + 1 else q, if r == 21 then 0 else r + 1;
    Divided(k'.frame, q', r');
    hide PropFrames, FrameAt;
    if k'.frame < FrameCount(part) {
      assert RegistersOk(k', part, t0);
    }
  }

  // ----- frames depend on the range they are read from and nothing else -----

  ghost predicate SameRange(s: seq<nat>, t: seq<nat>, start: nat, n: nat) {
    |s| == |t| && start + n <= |s| && forall a :: start <= a < start + n ==> s[a] == t[a]
  }

  lemma SameFrame(s: seq<nat>, t: seq<nat>, id: nat, start: nat, loopNum: nat, junk: nat, q: nat, r: nat)
    requires Fits(s, id, start, loopNum) && Sends(loopNum, q, r) && SameRange(s, t, start, loopNum)
    ensures FrameAt(s, id, 1, start, loopNum, junk, q, r) == FrameAt(t, id, 1, start, loopNum, junk, q, r)
  {
    SendsInRange(loopNum, q, r);
  }

  lemma {:induction false} SameFrames(s: seq<nat>, t: seq<nat>, id: nat, start: nat, loopNum: nat, junk: nat, q: nat, r: nat)
    requires Fits(s, id, start, loopNum) && r < 22 && 22 * q + r <= loopNum + PacketNum(loopNum) && SameRange(s, t, start, loopNum)
    ensures PropFrames(s, id, 1, start, loopNum, junk, q, r) == PropFrames(t, id, 1, start, loopNum, junk, q, r)
    decreases q, r
  {
    if q > 0 || r > 0 {
      var q', r' := if r > 0 then q else q - 1, if r > 0 then r - 1 else 21;
      SameFrames(s, t, id, start, loopNum, junk, q', r');
      SameFrame(s, t, id, start, loopNum, junk, q', r');
    }
  }

  ghost predicate SamePartitions(s: seq<nat>, t: seq<nat>, words: nat, items: seq<nat>) {
    forall i :: 0 <= i < |items| ==> SameRange(s, t, items[i] * words, words)
  }

  lemma SameAllFrames(s: seq<nat>, t: seq<nat>, id: nat, start: nat, loopNum: nat, junk: nat)
    requires Fits(s, id, start, loopNum) && SameRange(s, t, start, loopNum)
    ensures AllFrames(s, id, 1, start, loopNum, junk) == AllFrames(t, id, 1, start, loopNum, junk)
  {
    var total := loopNum + PacketNum(loopNum);
    SameFrames(s, t, id, start, loopNum, junk, total / 22, total % 22);
  }

  lemma SameLast(s: seq<nat>, t: seq<nat>, id: nat, words: nat, front: seq<nat>, p: nat, junk: nat -> nat)
    requires RangesFit(s, id, words, front + [p]) && RangesFit(t, id, words, front + [p]) && SameRange(s, t, p * words, words)
    requires RangesFit(s, id, words, front) && RangesFit(t, id, words, front)
    requires NodeFrames(s, id, words, front, junk) == NodeFrames(t, id, words, front, junk)
    ensures NodeFrames(s, id, words, front + [p], junk) == NodeFrames(t, id, words, front + [p], junk)
  {
    hide RangesFit, NodeFrames, AllFrames, SameRange;
    NodeFramesSnoc(s, id, words, front, p, junk);
    NodeFramesSnoc(t, id, words, front, p, junk);
    SameAllFrames(s, t, id, p * words, words, junk(|front|));
  }

  lemma FrontSame(s: seq<nat>, t: seq<nat>, id: nat, words: nat, items: seq<nat>)
    requires items != [] && RangesFit(s, id, words, items) && RangesFit(t, id, words, items) && SamePartitions(s, t, words, items)
    ensures var front := items[..|items| - 1];
            && RangesFit(s, id, words, front) && RangesFit(t, id, words, front) && SamePartitions(s, t, words, front)
            && SameRange(s, t, items[|items| - 1] * words, words) && items == front + [items[|items| - 1]]
  {
  }

  lemma {:induction false} SameNodeFrames(s: seq<nat>, t: seq<nat>, id: nat, words: nat, items: seq<nat>, junk: nat -> nat)
    requires RangesFit(s, id, words, items) && RangesFit(t, id, words, items) && SamePartitions(s, t, words, items)
    ensures NodeFrames(s, id, words, items, junk) == NodeFrames(t, id, words, items, junk)
  {
    if items == [] {
      NothingSent(s, id, words, junk);
      NothingSent(t, id, words, junk);
    } else {
      var front, p := items[..|items| - 1], items[|items| - 1];
      FrontSame(s, t, id, words, items);
      hide RangesFit, NodeFrames, SamePartitions, SameRange;
      SameNodeFrames(s, t, id, words, front, junk);
      SameLast(s, t, id, words, front, p, junk);
    }
  }

  lemma NothingSent(t: seq<nat>, rank: nat, words: nat, junk: nat -> nat)
    requires RangesFit(t, rank, words, [])
    ensures NodeFrames(t, rank, words, [], junk) == []
  {
  }

  // ----- stores -----

  lemma {:induction false} StoreJoin(mem: seq<nat>, a: seq<Write>, b: seq<Write>)
    ensures Store(mem, a + b) == Store(Store(mem, a), b)
  {
    if b == [] {
      assert a + b == a;
    } else {
      StoreJoin(mem, a, b[..|b| - 1]);
      assert (a + b)[..|a + b| - 1] == a + b[..|b| - 1] && (a + b)[|a + b| - 1] == b[|b| - 1];
    }
  }

  lemma StoreOne(mem: seq<nat>, ws: seq<Write>, w: Write)
    requires 0 <= w.address < |mem|
    ensures Store(mem, ws + [w]) == Store(mem, ws)[w.address := w.value]
  {
    assert (ws + [w])[..|ws|] == ws;
  }

  // The writes of all iterations.
  function AllStores(turns: seq<seq<Turn>>): seq<Write> {
    if turns == [] then [] else AllStores(turns[..|turns| - 1]) + StoresOf(turns[|turns| - 1])
  }

  lemma StoresSnoc(turns: seq<Turn>, n: nat)
    requires n < |turns|
    ensures StoresOf(turns[..n + 1]) == StoresOf(turns[..n]) + if turns[n].StoreWord? then [turns[n].word] else []
  {
    assert turns[..n + 1][..n] == turns[..n];
  }

  lemma AllStoresSnoc(turns: seq<seq<Turn>>, n: nat)
    requires n < |turns|
    ensures AllStores(turns[..n + 1]) == AllStores(turns[..n]) + StoresOf(turns[n])
  {
    assert turns[..n + 1][..n] == turns[..n];
  }

  // ----- one node -----

  datatype Memory = Memory(temp: seq<nat>, prop: seq<nat>, propNew: seq<nat>)

  function ReadOf(m: Memory, superStep: nat): seq<nat> {
    if superStep % 2 == 0 then m.prop else m.propNew
  }

  function WrittenOf(m: Memory, superStep: nat): seq<nat> {
    if superStep % 2 == 0 then m.propNew else m.prop
  }

  // A superstep of one node: the buffer that is read is as it was, the scheduled
  // partitions of the temporary memory are computed from it, what was sent are
  // the packets of these partitions in their final state, and the other buffer
  // has been written by `writeProp` alone.
  ghost predicate Executed(m: Memory, m': Memory, superStep: nat, rank: nat, words: nat, items: seq<nat>, junk: nat -> nat,
                           compute: (seq<nat>, nat) -> nat, sent: seq<Frame>, stores: seq<Write>) {
    && ReadOf(m', superStep) == ReadOf(m, superStep)
    && WrittenOf(m', superStep) == Store(WrittenOf(m, superStep), stores)
    && ComputedFrom(m.temp, m'.temp, words, items, ReadOf(m, superStep), compute)
    && RangesFit(m'.temp, rank, words, items)
    && sent == NodeFrames(m'.temp, rank, words, items, junk)
  }

  // Just the partitions of `items` are computed from `b`.
  ghost predicate ComputedFrom(t0: seq<nat>, t: seq<nat>, words: nat, items: seq<nat>, b: seq<nat>, compute: (seq<nat>, nat) -> nat) {
    && |t| == |t0|
    && forall a :: 0 <= a < |t| ==>
         t[a] == if Scheduled(items, words, a) then compute(b, a) else t0[a]
  }

  ghost predicate Scheduled(items: seq<nat>, words: nat, a: nat) {
    exists p :: p in items && InSlot(p, words, a)
  }

  lemma SlotsApart(p: nat, q: nat, words: nat)
    requires p != q
    ensures p * words + words <= q * words || q * words + words <= p * words
  {
    if p < q {
      SlotFits(p, words, q);
    } else {
      SlotFits(q, words, p);
    }
  }

  lemma ScheduledSnoc(items: seq<nat>, p: nat, words: nat, a: nat)
    ensures Scheduled(items + [p], words, a) <==> Scheduled(items, words, a) || InSlot(p, words, a)
  {
    var all := items + [p];
    assert p in all && forall q :: q in all <==> q in items || q == p;
  }

  ghost predicate Distinct(items: seq<nat>) {
    forall i, j :: 0 <= i < j < |items| ==> items[i] != items[j]
  }

  // One more partition.
  lemma ComputedSnoc(t0: seq<nat>, t: seq<nat>, words: nat, items: seq<nat>, p: nat, b: seq<nat>, compute: (seq<nat>, nat) -> nat)
    requires ComputedFrom(t0, t, words, items, b, compute)
    ensures ComputedFrom(t0, Overwritten(t, p * words, words, b, compute), words, items + [p], b, compute)
  {
    var t' := Overwritten(t, p * words, words, b, compute);
    forall a | 0 <= a < |t'| ensures t'[a] == if Scheduled(items + [p], words, a) then compute(b, a) else t0[a] {
      ScheduledSnoc(items, p, words, a);
    }
  }

  // And the partitions before it stay as they are.
  lemma OthersStay(t: seq<nat>, words: nat, items: seq<nat>, p: nat, b: seq<nat>, compute: (seq<nat>, nat) -> nat)
    requires p !in items && forall i :: 0 <= i < |items| ==> items[i] * words + words <= |t|
    ensures SamePartitions(t, Overwritten(t, p * words, words, b, compute), words, items)
  {
    forall i | 0 <= i < |items| ensures SameRange(t, Overwritten(t, p * words, words, b, compute), items[i] * words, words) {
      SlotsApart(items[i], p, words);
    }
  }

  // ----- the loop over the schedule -----

  // What the host does in iteration `p`.
  function PartOf(p: nat, words: nat, items: seq<nat>, junk: nat -> nat): Part
    requires items != [] && p <= |items|
  {
    if p == 0 then Part(true, items[0] * words, false, 0, words, 0)
    else if p == |items| then Part(false, 0, true, items[p - 1] * words, words, junk(p - 1))
    else Part(true, items[p] * words, true, items[p - 1] * words, words, junk(p - 1))
  }

  ghost predicate JobFits(n: nat, rank: nat, words: nat, items: seq<nat>) {
    && words > 0 && words % 64 == 0 && items != [] && Distinct(items) && n <= 0x8000_0000 && rank < 0x8000_0000
    && forall i :: 0 <= i < |items| ==> items[i] * words + words <= n
  }

  lemma PartOfFits(p: nat, n: nat, rank: nat, words: nat, items: seq<nat>, junk: nat -> nat)
    requires JobFits(n, rank, words, items) && p <= |items|
    ensures PartFits(PartOf(p, words, items, junk), n, rank)
  {
    if 0 < p < |items| { SlotsApart(items[p], items[p - 1], words); }
  }

  // After `p` iterations: the partitions filled, and those sent.
  ghost predicate Filled(p: nat, words: nat, items: seq<nat>, t0: seq<nat>, t: seq<nat>, b: seq<nat>, compute: (seq<nat>, nat) -> nat) {
    ComputedFrom(t0, t, words, items[..if p <= |items| then p else |items|], b, compute)
  }

  ghost predicate SentBefore(p: nat, rank: nat, words: nat, items: seq<nat>, junk: nat -> nat, t: seq<nat>, sent: seq<Frame>)
    requires p <= |items| + 1
  {
    var done := items[..if p == 0 then 0 else p - 1];
    RangesFit(t, rank, words, done) && sent == NodeFrames(t, rank, words, done, junk)
  }

  // Iteration `p` takes `t` to `t'` and sends `more`.
  ghost predicate Iterated(p: nat, rank: nat, words: nat, items: seq<nat>, junk: nat -> nat, t: seq<nat>, t': seq<nat>, b: seq<nat>,
                           compute: (seq<nat>, nat) -> nat, more: seq<Frame>)
    requires items != [] && p <= |items|
  {
    var part := PartOf(p, words, items, junk);
    && t' == (if part.fills then Overwritten(t, part.fillStart, words, b, compute) else t)
    && (part.sends ==> Fits(t, rank, part.sendStart, words))
    && more == if part.sends then AllFrames(t, rank, 1, part.sendStart, words, part.junk) else []
  }

  lemma FillsOne(p: nat, rank: nat, words: nat, items: seq<nat>, junk: nat -> nat, t0: seq<nat>, t: seq<nat>, t': seq<nat>,
                 b: seq<nat>, compute: (seq<nat>, nat) -> nat, more: seq<Frame>)
    requires JobFits(|t|, rank, words, items) && p <= |items|
    requires Filled(p, words, items, t0, t, b, compute) && Iterated(p, rank, words, items, junk, t, t', b, compute, more)
    ensures Filled(p + 1, words, items, t0, t', b, compute) && SamePartitions(t, t', words, items[..p])
  {
    forall i | 0 <= i < p ensures items[..p][i] * words + words <= |t| { assert items[..p][i] == items[i]; }
    hide AllFrames, ComputedFrom;
    if p < |items| {
      assert items[..p + 1] == items[..p] + [items[p]];
      ComputedSnoc(t0, t, words, items[..p], items[p], b, compute);
      OthersStay(t, words, items[..p], items[p], b, compute);
    }
  }

  lemma PrefixFits(t: seq<nat>, rank: nat, words: nat, items: seq<nat>, p: nat)
    requires JobFits(|t|, rank, words, items) && p <= |items|
    ensures RangesFit(t, rank, words, items[..p])
  {
  }

  lemma SendsOne(p: nat, rank: nat, words: nat, items: seq<nat>, junk: nat -> nat, t: seq<nat>, t': seq<nat>,
                 b: seq<nat>, compute: (seq<nat>, nat) -> nat, sent: seq<Frame>, more: seq<Frame>)
    requires JobFits(|t|, rank, words, items) && p <= |items| && |t'| == |t| && SamePartitions(t, t', words, items[..p])
    requires SentBefore(p, rank, words, items, junk, t, sent) && Iterated(p, rank, words, items, junk, t, t', b, compute, more)
    ensures SentBefore(p + 1, rank, words, items, junk, t', sent + more)
  {
    PrefixFits(t, rank, words, items, p);
    PrefixFits(t', rank, words, items, p);
    hide JobFits, AllFrames, NodeFrames, Overwritten, SamePartitions, RangesFit;
    SameNodeFrames(t, t', rank, words, items[..p], junk);
    SendsLast(p, rank, words, items, junk, t, t', b, compute, sent, more);
  }

  lemma SendsLast(p: nat, rank: nat, words: nat, items: seq<nat>, junk: nat -> nat, t: seq<nat>, t': seq<nat>,
                  b: seq<nat>, compute: (seq<nat>, nat) -> nat, sent: seq<Frame>, more: seq<Frame>)
    requires items != [] && p <= |items| && RangesFit(t, rank, words, items[..p])
    requires SentBefore(p, rank, words, items, junk, t, sent) && Iterated(p, rank, words, items, junk, t, t', b, compute, more)
    ensures sent + more == NodeFrames(t, rank, words, items[..p], junk)
  {
    hide AllFrames, NodeFrames, Overwritten;
    if p == 0 {
      NothingSent(t, rank, words, junk);
    } else {
      assert items[..p] == items[..p - 1] + [items[p - 1]];
      NodeFramesSnoc(t, rank, words, items[..p - 1], items[p - 1], junk);
    }
  }

  class Node {
    const rank: nat
    const propTemp: array<nat>
    const propBuffer: array<nat>
    const propBufferNew: array<nat>

    // The three buffers, with whatever they hold.
    constructor (rank: nat, size: nat)
      ensures this.rank == rank && Apart() && fresh(propTemp) && fresh(propBuffer) && fresh(propBufferNew)
      ensures propTemp.Length == propBuffer.Length == propBufferNew.Length == size
    {
      this.rank := rank;
      propTemp := new nat[size];
      propBuffer := new nat[size];
      propBufferNew := new nat[size];
    }

    ghost predicate Apart() {
      propTemp != propBuffer && propTemp != propBufferNew && propBuffer != propBufferNew
    }

    ghost function Contents(): Memory
      reads propTemp, propBuffer, propBufferNew
    {
      Memory(propTemp[..], propBuffer[..], propBufferNew[..])
    }

    function ReadBuffer(superStep: nat): array<nat> {
      if superStep % 2 == 0 then propBuffer else propBufferNew
    }

    function WriteBuffer(superStep: nat): array<nat> {
      if superStep % 2 == 0 then propBufferNew else propBuffer
    }

    ghost predicate During(k: Kernels, part: Part, t0: seq<nat>, b: seq<nat>, compute: (seq<nat>, nat) -> nat)
      reads propTemp
    {
      UnderWay(propTemp[..], k, part, t0, rank, b, compute)
    }

    method ProduceWord(superStep: nat, k: Kernels, part: Part, compute: (seq<nat>, nat) -> nat, ghost t0: seq<nat>, ghost b: seq<nat>)
      returns (k': Kernels)
      requires During(k, part, t0, b, compute) && ReadBuffer(superStep)[..] == b
      requires part.fills && k.produced < part.words
      ensures During(k', part, t0, b, compute)
      ensures k'.produced == k.produced + 1 && k'.written == k.written && k'.frame == k.frame
    {
      OneProduced(propTemp[..], k, part, t0, rank, b, compute);
      hide UnderWay;
      var word := compute(ReadBuffer(superStep)[..], part.fillStart + k.produced);
      k' := k.(stream := k.stream + [word], produced := k.produced + 1);
    }

    method WriteOne(k: Kernels, part: Part, ghost t0: seq<nat>, ghost b: seq<nat>, ghost compute: (seq<nat>, nat) -> nat)
      returns (k': Kernels)
      requires During(k, part, t0, b, compute) && k.stream != []
      modifies propTemp
      ensures During(k', part, t0, b, compute)
      ensures k'.produced == k.produced && k'.written == k.written + 1 && k'.frame == k.frame
    {
      ghost var was := propTemp[..];
      OneWritten(was, k, part, t0, rank, b, compute);
      hide UnderWay;
      var loopCount, i := k.written / 64, k.written % 64;
      var at := loopCount * 64 + i + part.fillStart;
      assert at == part.fillStart + k.written;
      propTemp[at] := k.stream[0];
      assert propTemp[..] == was[at := k.stream[0]];
      k' := k.(stream := k.stream[1..], written := k.written + 1);
    }

    method SendOne(k: Kernels, part: Part, ghost t0: seq<nat>, ghost b: seq<nat>, ghost compute: (seq<nat>, nat) -> nat)
      returns (k': Kernels)
      requires During(k, part, t0, b, compute) && k.frame < FrameCount(part)
      ensures During(k', part, t0, b, compute)
      ensures k'.produced == k.produced && k'.written == k.written && k'.frame == k.frame + 1
    {
      ghost var q, r := k.frame / 22, k.frame % 22;
      AboutToSend(propTemp[..], k, part, t0, rank, b, compute);
      hide Overwritten, StreamOk, PropFrames, FrameAt;
      SameFrame(propTemp[..], t0, rank, part.sendStart, part.words, part.junk, q, r);
      var frame, raw, address, frameId :=
        NextFrame(propTemp, rank, 1, part.sendStart, part.words, part.junk, k.frame, k.raw, k.address, k.frameId, q, r);
      k' := k.(frame := k.frame + 1, raw := raw, address := address, frameId := frameId, sent := k.sent + [frame]);
      StreamApart(k, k', part, b, compute);
      FrameSent(k, k', part, t0, rank);
    }

    // One turn of one kernel, if it can take it.
    method Take(turn: Turn, superStep: nat, k: Kernels, part: Part, compute: (seq<nat>, nat) -> nat,
                ghost t0: seq<nat>, ghost b: seq<nat>, ghost w0: seq<nat>, ghost stores: seq<Write>)
      returns (k': Kernels)
      requires Apart() && During(k, part, t0, b, compute) && ReadBuffer(superStep)[..] == b
      requires WriteBuffer(superStep)[..] == Store(w0, stores)
      requires turn.StoreWord? ==> 0 <= turn.word.address < WriteBuffer(superStep).Length
      modifies propTemp, WriteBuffer(superStep)
      ensures During(k', part, t0, b, compute) && ReadBuffer(superStep)[..] == b
      ensures WriteBuffer(superStep)[..] == Store(w0, stores + if turn.StoreWord? then [turn.word] else [])
    {
      hide During, Store;
      k' := k;
      match turn
      case Produce =>
        assert stores + [] == stores;
        if part.fills && k.produced < part.words { k' := ProduceWord(superStep, k, part, compute, t0, b); }
      case WriteWord =>
        assert stores + [] == stores;
        if k.stream != [] { k' := WriteOne(k, part, t0, b, compute); }
      case SendFrame =>
        assert stores + [] == stores;
        if k.frame < FrameCount(part) { k' := SendOne(k, part, t0, b, compute); }
      case StoreWord(word) =>
        StoreOne(w0, stores, word);
        StoreWordAt(superStep, word, k, part, t0, b, compute);
    }

    method StoreWordAt(superStep: nat, word: Write, ghost k: Kernels, ghost part: Part, ghost t0: seq<nat>, ghost b: seq<nat>,
                       ghost compute: (seq<nat>, nat) -> nat)
      requires Apart() && 0 <= word.address < WriteBuffer(superStep).Length && During(k, part, t0, b, compute)
      modifies WriteBuffer(superStep)
      ensures WriteBuffer(superStep)[..] == old(WriteBuffer(superStep)[..])[word.address := word.value]
      ensures During(k, part, t0, b, compute)
      ensures ReadBuffer(superStep)[..] == old(ReadBuffer(superStep)[..])
    {
      hide During;
      var buffer := WriteBuffer(superStep);
      buffer[word.address] := word.value;
    }

    // The kernels that are waited for run to their end.
    method Finish(superStep: nat, k: Kernels, part: Part, compute: (seq<nat>, nat) -> nat, ghost t0: seq<nat>, ghost b: seq<nat>)
      returns (k': Kernels)
      requires Apart() && During(k, part, t0, b, compute) && ReadBuffer(superStep)[..] == b
      modifies propTemp
      ensures During(k', part, t0, b, compute)
      ensures k'.frame == FrameCount(part) && k'.written == if part.fills then part.words else 0
    {
      k' := k;
      Counts(k', part, t0, b, compute);
      while k'.written < (if part.fills then BurstWords(16 * part.words) else 0) || k'.frame < FrameCount(part)
        invariant During(k', part, t0, b, compute) && ReadBuffer(superStep)[..] == b
        invariant CountsOk(k', part)
        decreases part.words - k'.written, part.words - k'.produced, FrameCount(part) - k'.frame
      {
        hide During;
        if k'.frame < FrameCount(part) {
          k' := SendOne(k', part, t0, b, compute);
        } else if k'.stream != [] {
          k' := WriteOne(k', part, t0, b, compute);
        } else {
          k' := ProduceWord(superStep, k', part, compute, t0, b);
        }
        Counts(k', part, t0, b, compute);
      }
    }

    ghost predicate CountsOk(k: Kernels, part: Part) {
      && k.written <= k.produced <= (if part.fills then part.words else 0) && |k.stream| == k.produced - k.written
      && k.frame <= FrameCount(part) && BurstWords(16 * part.words) == part.words
    }

    lemma Counts(k: Kernels, part: Part, t0: seq<nat>, b: seq<nat>, compute: (seq<nat>, nat) -> nat)
      requires During(k, part, t0, b, compute)
      ensures CountsOk(k, part)
    {
      WholeBurstsIff(16 * part.words);
    }

    // Before anything has happened in an iteration.
    lemma AtStart(part: Part, b: seq<nat>, compute: (seq<nat>, nat) -> nat)
      requires PartFits(part, propTemp.Length, rank)
      ensures During(Kernels([], 0, 0, 0, part.junk, 0, 0, []), part, propTemp[..], b, compute)
    {
      assert propTemp[..] == Overwritten(propTemp[..], part.fillStart, 0, b, compute);
    }

    lemma AtEnd(k: Kernels, part: Part, t0: seq<nat>, b: seq<nat>, compute: (seq<nat>, nat) -> nat)
      requires During(k, part, t0, b, compute) && k.frame == FrameCount(part) && k.written == if part.fills then part.words else 0
      ensures propTemp[..] == if part.fills then Overwritten(t0, part.fillStart, part.words, b, compute) else t0
      ensures part.sends ==> Fits(t0, rank, part.sendStart, part.words)
      ensures k.sent == if part.sends then AllFrames(t0, rank, 1, part.sendStart, part.words, part.junk) else []
    {
      hide RegistersOk, StreamOk, PropFrames;
      if !part.fills {
        assert Overwritten(t0, part.fillStart, 0, b, compute) == t0;
      }
    }

    // One iteration of the host's loop: the kernels take turns in any order and
    // those that are waited for finish.
    method Iteration(superStep: nat, part: Part, turns: seq<Turn>, compute: (seq<nat>, nat) -> nat) returns (sent: seq<Frame>)
      requires Apart() && PartFits(part, propTemp.Length, rank) && StoresFit(turns, WriteBuffer(superStep).Length)
      modifies propTemp, WriteBuffer(superStep)
      ensures ReadBuffer(superStep)[..] == old(ReadBuffer(superStep)[..])
      ensures WriteBuffer(superStep)[..] == Store(old(WriteBuffer(superStep)[..]), StoresOf(turns))
      ensures propTemp[..] == if part.fills then
                                Overwritten(old(propTemp[..]), part.fillStart, part.words, old(ReadBuffer(superStep)[..]), compute)
                              else old(propTemp[..])
      ensures part.sends ==> Fits(old(propTemp[..]), rank, part.sendStart, part.words)
      ensures sent == if part.sends then AllFrames(old(propTemp[..]), rank, 1, part.sendStart, part.words, part.junk) else []
    {
      ghost var t0, b, w0 := propTemp[..], ReadBuffer(superStep)[..], WriteBuffer(superStep)[..];
      var k := Kernels([], 0, 0, 0, part.junk, 0, 0, []);
      AtStart(part, b, compute);
      var i := 0;
      while i < |turns|
        invariant 0 <= i <= |turns| && During(k, part, t0, b, compute) && ReadBuffer(superStep)[..] == b
        invariant WriteBuffer(superStep)[..] == Store(w0, StoresOf(turns[..i]))
      {
        hide During, Store, StoresOf;
        StoresSnoc(turns, i);
        k := Take(turns[i], superStep, k, part, compute, t0, b, w0, StoresOf(turns[..i]));
        i := i + 1;
      }
      hide During, Store, StoresOf;
      assert turns[..i] == turns;
      k := Finish(superStep, k, part, compute, t0, b);
      AtEnd(k, part, t0, b, compute);
      sent := k.sent;
    }

    // One iteration keeps the loop's progress.
    method Advance(p: nat, superStep: nat, words: nat, items: seq<nat>, junk: nat -> nat, compute: (seq<nat>, nat) -> nat,
                   turns: seq<Turn>, ghost t0: seq<nat>, ghost b: seq<nat>, ghost sent: seq<Frame>)
      returns (more: seq<Frame>)
      requires Apart() && JobFits(propTemp.Length, rank, words, items) && p <= |items|
      requires StoresFit(turns, WriteBuffer(superStep).Length) && ReadBuffer(superStep)[..] == b
      requires Filled(p, words, items, t0, propTemp[..], b, compute) && SentBefore(p, rank, words, items, junk, propTemp[..], sent)
      modifies propTemp, WriteBuffer(superStep)
      ensures Filled(p + 1, words, items, t0, propTemp[..], b, compute)
      ensures SentBefore(p + 1, rank, words, items, junk, propTemp[..], sent + more)
      ensures ReadBuffer(superStep)[..] == b
      ensures WriteBuffer(superStep)[..] == Store(old(WriteBuffer(superStep)[..]), StoresOf(turns))
    {
      assert items != [];
      hide Filled, SentBefore, Store, StoresOf, PartFits, JobFits, StoresFit, AllFrames;
      PartOfFits(p, propTemp.Length, rank, words, items, junk);
      more := Iteration(superStep, PartOf(p, words, items, junk), turns, compute);
      ghost var t, t' := old(propTemp[..]), propTemp[..];
      assert Iterated(p, rank, words, items, junk, t, t', b, compute, more);
      hide Iterated;
      FillsOne(p, rank, words, items, junk, t0, t, t', b, compute, more);
      SendsOne(p, rank, words, items, junk, t, t', b, compute, sent, more);
    }

    // The superstep: `p` runs over the schedule and once more, each time filling
    // partition `p` and sending the one before.
    method AcceleratorExecute(superStep: nat, words: nat, items: seq<nat>, junk: nat -> nat, compute: (seq<nat>, nat) -> nat,
                              turns: seq<seq<Turn>>)
      returns (sent: seq<Frame>)
      requires Apart() && JobFits(propTemp.Length, rank, words, items)
      requires |turns| == |items| + 1 && forall p :: 0 <= p < |turns| ==> StoresFit(turns[p], WriteBuffer(superStep).Length)
      modifies propTemp, WriteBuffer(superStep)
      ensures Executed(old(Contents()), Contents(), superStep, rank, words, items, junk, compute, sent, AllStores(turns))
      ensures superStep % 2 == 0 ==>
                && propBuffer[..] == old(propBuffer[..]) && propBufferNew[..] == Store(old(propBufferNew[..]), AllStores(turns))
                && ComputedFrom(old(propTemp[..]), propTemp[..], words, items, old(propBuffer[..]), compute)
      ensures superStep % 2 == 1 ==>
                && propBufferNew[..] == old(propBufferNew[..]) && propBuffer[..] == Store(old(propBuffer[..]), AllStores(turns))
                && ComputedFrom(old(propTemp[..]), propTemp[..], words, items, old(propBufferNew[..]), compute)
    {
      ghost var t0, b, w0 := propTemp[..], ReadBuffer(superStep)[..], WriteBuffer(superStep)[..];
      sent := [];
      var p := 0;
      while p < |items| + 1
        invariant 0 <= p <= |items| + 1
        invariant ReadBuffer(superStep)[..] == b && WriteBuffer(superStep)[..] == Store(w0, AllStores(turns[..p]))
        invariant Filled(p, words, items, t0, propTemp[..], b, compute)
        invariant SentBefore(p, rank, words, items, junk, propTemp[..], sent)
      {
        hide Filled, SentBefore, Store, AllStores, StoresOf, JobFits, StoresFit;
        AllStoresSnoc(turns, p);
        StoreJoin(w0, AllStores(turns[..p]), StoresOf(turns[p]));
        var more := Advance(p, superStep, words, items, junk, compute, turns[p], t0, b, sent);
        sent := sent + more;
        p := p + 1;
      }
      assert turns[..p] == turns && items[..|items|] == items;
    }
  }
}
