/** One processing element of the source-vertex cache: a direct-mapped window of vertex
    properties, refilled from a stream of 16-word lines while lookups are answered. */
module CachePe {

  /** 32-bit words in the cache: DEPTH rows of BANKS cells of two words. */
  const BANKS: nat := 8
  const DEPTH: nat := 4096
  const CACHE_SIZE: nat := 65536

  datatype Option<+T> = None | Some(value: T)

  /** A 64-bit memory cell: words at even and odd addresses. */
  datatype Cell = Cell(lo: nat, hi: nat)

  datatype Line = Line(addr: nat, data: seq<nat>, last: bool)
  datatype Lookup = Lookup(id: nat, last: bool)
  datatype Answer = Answer(value: nat, last: bool)

  /** The registers at the top of the loop.  `max_vertex_index`, its copy and the two values
      buffered from it are equal there, so one stands for all. */
  datatype Pe = Pe(
    sv: nat, svReady: bool, frpFlag: bool, required: nat,
    minIndex: nat, maxIndex: nat,
    tbValid: bool, tbIndex: nat, tb: seq<nat>, needUpdate: bool,
    endOfSv: bool, endOfCa: bool)

  function RowBase(id: nat): nat {
    id - id % 16
  }

  function Hit(pe: Pe, id: nat): bool {
    pe.minIndex <= id < pe.maxIndex
  }

  /** First part of a pass: take a lookup if none is pending, and answer it on a hit. */
  function Look(pe: Pe, prop: seq<nat>, arrived: Option<Lookup>): (Pe, Option<Answer>)
    requires |prop| == CACHE_SIZE
  {
    if !pe.svReady then
      match arrived
      case None => (pe, None)
      case Some(l) =>
        var pe1 := pe.(sv := l.id, frpFlag := l.last, required := RowBase(l.id));
        if Hit(pe, l.id) then (pe1, Some(Answer(prop[l.id % CACHE_SIZE], l.last)))
        else (pe1.(svReady := true), None)
    else if Hit(pe, pe.sv) then (pe, Some(Answer(prop[pe.sv % CACHE_SIZE], pe.frpFlag)))
    else (pe, None)
  }

  function StoreRow(prop: seq<nat>, addr: nat, data: seq<nat>): (p: seq<nat>)
    requires |prop| == CACHE_SIZE && |data| == 16
    ensures |p| == CACHE_SIZE
    ensures forall w :: 0 <= w < CACHE_SIZE ==>
              p[w] == if w / 16 == (addr % 65536) / 16 then data[w % 16] else prop[w]
  {
    var row := (addr % CACHE_SIZE) / 16;
    prop[..16 * row] + data + prop[16 * row + 16..]
  }

  /** Second part: take a line into the transfer buffer, or move the buffer into the window.
      Returns whether a line was read and whether the window changed. */
  function Refill(pe: Pe, prop: seq<nat>, arrived: Option<Line>): (Pe, seq<nat>, bool, bool)
    requires |prop| == CACHE_SIZE && |pe.tb| == 16
  {
    if !pe.tbValid || pe.endOfSv then
      match arrived
      case None => (pe, prop, false, false)
      case Some(l) =>
        (pe.(tbIndex := l.addr, tb := l.data, tbValid := true, endOfCa := pe.endOfCa || l.last), prop, true, false)
    else if pe.needUpdate then
      (pe.(tbValid := false, needUpdate := false), StoreRow(prop, pe.tbIndex, pe.tb), false, true)
    else
      (pe, prop, false, false)
  }

  /** Last part: retire the answered lookup, move the window's bounds, reopen the guard. */
  function Finish(pe: Pe, answered: bool, updated: bool): Pe {
    var top := RowBase(pe.tbIndex) + 16;
    var maxIndex := if updated && pe.maxIndex < top then top else pe.maxIndex;
    pe.(endOfSv := pe.endOfSv || (answered && pe.frpFlag),
        svReady := pe.svReady && !answered,
        maxIndex := maxIndex,
        minIndex := if updated && pe.tbIndex == pe.required then pe.tbIndex else pe.minIndex,
        needUpdate := pe.needUpdate || pe.required + CACHE_SIZE > maxIndex)
  }

  datatype Effect = Effect(pe: Pe, prop: seq<nat>, svRead: bool, lineRead: bool, answer: Option<Answer>)

  /** One pass of the loop, given what its two non-blocking reads find. */
  function Iteration(pe: Pe, prop: seq<nat>, lookup: Option<Lookup>, line: Option<Line>): Effect
    requires |prop| == CACHE_SIZE && |pe.tb| == 16
  {
    var (pe1, answer) := Look(pe, prop, lookup);
    var (pe2, prop2, lineRead, updated) := Refill(pe1, prop, line);
    Effect(Finish(pe2, answer.Some?, updated), prop2, !pe.svReady && lookup.Some?, lineRead, answer)
  }

  /** The kernel's state: eight banks of 64-bit cells and its registers. */
  class Cache {
    const prop: array2<Cell>
    const tempBuffer: array<Cell>
    var sv: nat
    var svReady: bool
    var frpFlag: bool
    var required: nat
    var minIndex: nat
    var maxIndex: nat
    var maxIndexCp: nat
    var maxBufferSv: nat
    var maxBufferCu: nat
    var tbValid: bool
    var tbIndex: nat
    var needUpdate: bool
    var endOfSv: bool
    var endOfCa: bool

    ghost predicate Sized() {
      prop.Length0 == BANKS && prop.Length1 == DEPTH && tempBuffer.Length == BANKS
    }

    ghost predicate Valid()
      reads this
    {
      && Sized()
      && maxIndex == maxIndexCp == maxBufferSv == maxBufferCu
    }

    /** The window as 65536 words: word `w` is half `w % 2` of bank `(w / 2) % 8`, row `w / 16`. */
    ghost function Words(): (s: seq<nat>)
      reads prop
      requires Sized()
      ensures |s| == 65536
      ensures forall w :: 0 <= w < 65536 ==>
                s[w] == if w % 2 == 1 then prop[(w / 2) % BANKS, w / 16].hi else prop[(w / 2) % BANKS, w / 16].lo
    {
      seq(CACHE_SIZE, w requires 0 <= w < CACHE_SIZE && Sized() reads prop =>
        if w % 2 == 1 then prop[(w / 2) % BANKS, w / 16].hi else prop[(w / 2) % BANKS, w / 16].lo)
    }

    ghost function Buffered(): (s: seq<nat>)
      reads tempBuffer
      requires Sized()
      ensures |s| == 16
      ensures forall w :: 0 <= w < 16 ==> s[w] == if w % 2 == 1 then tempBuffer[w / 2].hi else tempBuffer[w / 2].lo
    {
      seq(16, w requires 0 <= w < 16 && Sized() reads tempBuffer =>
        if w % 2 == 1 then tempBuffer[w / 2].hi else tempBuffer[w / 2].lo)
    }

    ghost function Registers(): Pe
      reads this, tempBuffer
      requires Valid()
    {
      Pe(sv, svReady, frpFlag, required, minIndex, maxIndex, tbValid, tbIndex, Buffered(), needUpdate, endOfSv, endOfCa)
    }

    /** At the top of `free_run`: the registers are set; the window, the transfer buffer and the
        last lookup are whatever is left of an earlier pass. */
    constructor ()
      ensures Valid() && fresh(prop) && fresh(tempBuffer)
      ensures Registers() == Pe(sv, false, false, 0, 0, 0, false, 0, Buffered(), false, false, false)
    {
      prop := new Cell[BANKS, DEPTH];
      tempBuffer := new Cell[BANKS];
      sv := *;
      svReady, frpFlag, required, minIndex := false, false, 0, 0;
      maxIndex, maxIndexCp, maxBufferSv, maxBufferCu := 0, 0, 0, 0;
      tbValid, tbIndex, needUpdate, endOfSv, endOfCa := false, 0, false, false, false;
    }

    /** `CACHE_ACCESS_FRP`. */
    method Access(src: nat) returns (value: nat)
      requires Valid()
      ensures value == Words()[src % 65536]
    {
      var address := (src % CACHE_SIZE) / 16;
      var bit := ((src % CACHE_SIZE) / 2) % BANKS;
      var tmp := prop[bit, address];
      value := if src % 2 == 1 then tmp.hi else tmp.lo;
    }

    /** `prop[k][tag] = temp_buffer[k]` for every bank. */
    method StoreBuffer()
      requires Valid()
      modifies prop
      ensures Valid() && Buffered() == old(Buffered())
      ensures Words() == StoreRow(old(Words()), tbIndex, Buffered())
    {
      var tag := (tbIndex % CACHE_SIZE) / 16;
      ghost var before, buffer := Words(), Buffered();
      for k := 0 to BANKS
        invariant Buffered() == buffer
        invariant forall b, r :: 0 <= b < BANKS && 0 <= r < DEPTH && !(r == tag && b < k) ==> prop[b, r] == old(prop[b, r])
        invariant forall b :: 0 <= b < k ==> prop[b, tag] == tempBuffer[b]
      {
        prop[k, tag] := tempBuffer[k];
      }
      ghost var after := StoreRow(before, tbIndex, buffer);
      forall w | 0 <= w < CACHE_SIZE ensures Words()[w] == after[w] {
        WordAddress(w);
        if w / 16 == tag {
          assert prop[(w / 2) % BANKS, w / 16] == tempBuffer[(w % 16) / 2];
        } else {
          assert prop[(w / 2) % BANKS, w / 16] == old(prop[(w / 2) % BANKS, w / 16]);
        }
      }
    }

    method TakeLookup(lookup: Option<Lookup>) returns (svRead: bool, answer: Option<Answer>)
      requires Valid()
      modifies this
      ensures Valid() && (Registers(), answer) == Look(old(Registers()), Words(), lookup)
      ensures svRead == (!old(svReady) && lookup.Some?)
    {
      svRead, answer := false, None;
      if !svReady {
        if lookup.Some? {
          svRead := true;
          sv, frpFlag := lookup.value.id, lookup.value.last;
          required := RowBase(sv);
          if minIndex <= sv < maxBufferSv {
            var value := Access(sv);
            answer := Some(Answer(value, frpFlag));
          } else {
            svReady := true;
          }
        }
      } else if minIndex <= sv < maxBufferSv {
        var value := Access(sv);
        answer := Some(Answer(value, frpFlag));
      }
    }

    method TakeLine(line: Option<Line>) returns (lineRead: bool, caUpdated: bool)
      requires Valid() && (line.Some? ==> |line.value.data| == 16)
      modifies this, prop, tempBuffer
      ensures Valid() && (Registers(), Words(), lineRead, caUpdated) == old(Refill(Registers(), Words(), line))
    {
      lineRead, caUpdated := false, false;
      if !tbValid || endOfSv {
        if line.Some? {
          lineRead := true;
          tbIndex := line.value.addr;
          if line.value.last {
            endOfCa := true;
          }
          tbValid := true;
          FillBuffer(line.value.data);
        }
      } else if needUpdate {
        StoreBuffer();
        caUpdated := true;
        tbValid := false;
        needUpdate := false;
      }
    }

    /** The tail of `CACHE_SEND_OUT`. */
    method SendOut()
      requires Valid()
      modifies this`endOfSv, this`svReady
      ensures endOfSv == (old(endOfSv) || frpFlag) && !svReady
    {
      if frpFlag {
        endOfSv := true;
      }
      svReady := false;
    }

    /** After a line went into the window. */
    method MoveBounds()
      requires Valid()
      modifies this`maxIndex, this`maxIndexCp, this`minIndex
      ensures maxIndex == maxIndexCp == (if old(maxIndex) < RowBase(tbIndex) + 16 then RowBase(tbIndex) + 16 else old(maxIndex))
      ensures minIndex == if tbIndex == required then tbIndex else old(minIndex)
    {
      var top := RowBase(tbIndex) + 16;
      if maxIndex < top {
        maxIndex, maxIndexCp := top, top;
      }
      if tbIndex == required {
        minIndex := tbIndex;
      }
    }

    method Retire(answered: bool, caUpdated: bool)
      requires Valid()
      modifies this
      ensures Valid() && Registers() == Finish(old(Registers()), answered, caUpdated)
    {
      hide Buffered;
      if answered {
        SendOut();
      }
      if caUpdated {
        MoveBounds();
      }
      maxBufferSv, maxBufferCu := maxIndex, maxIndexCp;
      if required + CACHE_SIZE > maxBufferCu {
        needUpdate := true;
      }
    }

    /** One pass of the inner loop.  `lookup` and `line` are what the non-blocking reads
        would find; a line that is read is passed on to the next element. */
    method Iterate(lookup: Option<Lookup>, line: Option<Line>)
      returns (svRead: bool, passedOn: Option<Line>, answer: Option<Answer>, done: bool)
      requires Valid() && (line.Some? ==> |line.value.data| == 16)
      modifies this, prop, tempBuffer
      ensures Valid()
      ensures var e := old(Iteration(Registers(), Words(), lookup, line));
              && Registers() == e.pe && Words() == e.prop
              && svRead == e.svRead && answer == e.answer
              && passedOn == (if e.lineRead then line else None)
      ensures done == (endOfCa && endOfSv)
    {
      var lineRead, caUpdated;
      svRead, answer := TakeLookup(lookup);
      lineRead, caUpdated := TakeLine(line);
      passedOn := if lineRead then line else None;
      Retire(answer.Some?, caUpdated);
      done := endOfCa && endOfSv;
    }

    /** `temp_buffer[k] = buffer.range(63 + 64 * k, 64 * k)` for every bank. */
    method FillBuffer(data: seq<nat>)
      requires Valid() && |data| == 16
      modifies tempBuffer
      ensures Valid() && Buffered() == data
    {
      for k := 0 to BANKS
        invariant forall b :: 0 <= b < k ==> tempBuffer[b] == Cell(data[2 * b], data[2 * b + 1])
      {
        tempBuffer[k] := Cell(data[2 * k], data[2 * k + 1]);
      }
      forall w | 0 <= w < 16 ensures Buffered()[w] == data[w] {
        assert tempBuffer[w / 2] == Cell(data[2 * (w / 2)], data[2 * (w / 2) + 1]);
      }
    }
  }

  lemma WordAddress(w: nat)
    requires w < CACHE_SIZE
    ensures (w / 2) % BANKS == (w % 16) / 2 && w % 2 == (w % 16) % 2 && w / 16 < DEPTH
  {
  }
}
