/**
 * One of the sixteen accumulation units of the gather pipeline
 * (`dstPropertyProcess`). Two neighbouring vertices share one 64-bit word of
 * the accumulation buffer. The buffer is read and written back while earlier
 * writes may still be on their way, so the unit keeps its last four writes in
 * a forwarding window and prefers the newest match over what it reads.
 */
module DstProperty {
  // An edge on its way to a destination: the vertex and the value to gather.
  datatype Update<V> = Update(dst: int, value: V)

  datatype Token<V> = Token(data: Update<V>, last: bool)

  // One 64-bit buffer word, holding an even and the next odd vertex.
  datatype Word<V> = Word(lsb: V, msb: V)

  // A write-back: word address and value.
  datatype Write<V> = Write(addr: nat, value: Word<V>)

  // Entries in the forwarding window, and the number of most recent writes a
  // read of the buffer may miss.
  const WINDOW := 4

  // ---------------------------------------------------------------------
  // What the unit is for: a plain sequential read-modify-write.
  // ---------------------------------------------------------------------

  // The vertex number of a destination within the unit, for 2 * words vertices.
  function Index(dst: int, words: nat): (idx: nat)
    requires dst >= 0 && words > 0
    ensures idx < 2 * words
  {
    (dst / 16) % (2 * words)
  }

  function Vertex<V>(buffer: seq<Word<V>>, idx: nat): V
    requires idx < 2 * |buffer|
  {
    if idx % 2 == 1 then buffer[idx / 2].msb else buffer[idx / 2].lsb
  }

  function Bump<V>(w: Word<V>, odd: bool, y: V, gather: (V, V) -> V): Word<V> {
    if odd then Word(w.lsb, gather(w.msb, y)) else Word(gather(w.lsb, y), w.msb)
  }

  function Applied<V>(buffer: seq<Word<V>>, u: Update<V>, gather: (V, V) -> V): (r: seq<Word<V>>)
    requires |buffer| > 0
    ensures |r| == |buffer|
  {
    if u.dst < 0 then buffer
    else
      var idx := Index(u.dst, |buffer|);
      buffer[idx / 2 := Bump(buffer[idx / 2], idx % 2 == 1, u.value, gather)]
  }

  // The buffer after the first n updates of us, each seeing all before it.
  function Sequential<V>(buffer: seq<Word<V>>, us: seq<Update<V>>, n: nat, gather: (V, V) -> V): (r: seq<Word<V>>)
    requires |buffer| > 0 && n <= |us|
    ensures |r| == |buffer|
  {
    if n == 0 then buffer else Applied(Sequential(buffer, us, n - 1, gather), us[n - 1], gather)
  }

  // The in-order gather, starting from zero, over those of the first n updates
  // that carry a real destination with vertex number idx.
  function GatheredAt<V>(us: seq<Update<V>>, n: nat, idx: nat, words: nat, gather: (V, V) -> V, zero: V): V
    requires n <= |us| && words > 0
  {
    if n == 0 then zero
    else
      var r := GatheredAt(us, n - 1, idx, words, gather, zero);
      var u := us[n - 1];
      if u.dst >= 0 && Index(u.dst, words) == idx then gather(r, u.value) else r
  }

  ghost predicate AllZero<V>(buffer: seq<Word<V>>, zero: V) {
    forall a :: 0 <= a < |buffer| ==> buffer[a] == Word(zero, zero)
  }

  lemma {:induction false} SequentialGathers<V>(buffer: seq<Word<V>>, us: seq<Update<V>>, n: nat, idx: nat,
                                                gather: (V, V) -> V, zero: V)
    requires |buffer| > 0 && n <= |us| && AllZero(buffer, zero)
    requires idx < 2 * |buffer|
    ensures Vertex(Sequential(buffer, us, n, gather), idx) == GatheredAt(us, n, idx, |buffer|, gather, zero)
  {
    if n > 0 {
      SequentialGathers(buffer, us, n - 1, idx, gather, zero);
      AppliedAt(Sequential(buffer, us, n - 1, gather), us[n - 1], idx, gather);
    }
  }

  lemma AppliedAt<V>(buffer: seq<Word<V>>, u: Update<V>, idx: nat, gather: (V, V) -> V)
    requires |buffer| > 0 && idx < 2 * |buffer|
    ensures Vertex(Applied(buffer, u, gather), idx) ==
            if u.dst >= 0 && Index(u.dst, |buffer|) == idx then gather(Vertex(buffer, idx), u.value)
            else Vertex(buffer, idx)
  {
    if u.dst >= 0 {
      var hit := Index(u.dst, |buffer|);
      assert hit == idx <==> (hit / 2 == idx / 2 && hit % 2 == idx % 2);
    }
  }

  // ---------------------------------------------------------------------
  // The forwarding window.
  // ---------------------------------------------------------------------

  // What the scan over the window yields: the newest match, else the word read.
  function Forwarded<V>(window: seq<Write<V>>, addr: nat, read: Word<V>): Word<V> {
    if window == [] then read
    else if window[|window| - 1].addr == addr then window[|window| - 1].value
    else Forwarded(window[..|window| - 1], addr, read)
  }

  // The window holds the newest write for each address it mentions, and every
  // write the memory has not taken yet is among its last entries.
  ghost predicate Coherent<V>(memory: seq<Word<V>>, pending: seq<Write<V>>, window: seq<Write<V>>,
                              contents: seq<Word<V>>)
  {
    && |memory| == |contents|
    && |window| == 4
    && (forall i :: 0 <= i < |window| ==> window[i].addr < |contents|)
    && (forall i :: 0 <= i < |window| ==>
          (forall j :: i < j < |window| ==> window[j].addr != window[i].addr) ==>
            contents[window[i].addr] == window[i].value)
    && |pending| <= 4
    && pending == window[4 - |pending|..]
    && (forall a :: 0 <= a < |memory| ==>
          (forall i :: 0 <= i < |pending| ==> pending[i].addr != a) ==> memory[a] == contents[a])
  }

  // The scan picks entry i, the newest for the address, or none at all.
  lemma {:induction false} ForwardedIsNewest<V>(window: seq<Write<V>>, addr: nat, read: Word<V>)
    returns (i: int)
    ensures -1 <= i < |window|
    ensures forall j :: i < j < |window| ==> window[j].addr != addr
    ensures i == -1 ==> Forwarded(window, addr, read) == read
    ensures i >= 0 ==> window[i].addr == addr && Forwarded(window, addr, read) == window[i].value
  {
    var n := |window| - 1;
    if n == -1 || window[n].addr == addr {
      i := n;
    } else {
      i := ForwardedIsNewest(window[..n], addr, read);
      forall j | i < j < |window| ensures window[j].addr != addr {
        if j < n { assert window[..n][j] == window[j]; }
      }
    }
  }

  // Reading through the window gives the true contents, whatever is pending.
  lemma ForwardingMasksTheLag<V>(memory: seq<Word<V>>, pending: seq<Write<V>>, window: seq<Write<V>>,
                                 contents: seq<Word<V>>, addr: nat)
    requires Coherent(memory, pending, window, contents) && addr < |memory|
    ensures Forwarded(window, addr, memory[addr]) == contents[addr]
  {
    var newest := ForwardedIsNewest(window, addr, memory[addr]);
    if newest == -1 {
      forall i | 0 <= i < |pending| ensures pending[i].addr != addr {
        assert pending[i] == window[WINDOW - |pending| + i];
      }
    }
  }

  lemma OldestWriteLands<V>(memory: seq<Word<V>>, pending: seq<Write<V>>, window: seq<Write<V>>,
                            contents: seq<Word<V>>)
    requires Coherent(memory, pending, window, contents) && pending != []
    ensures pending[0].addr < |memory|
    ensures Coherent(memory[pending[0].addr := pending[0].value], pending[1..], window, contents)
  {
    var k := WINDOW - |pending|;
    var w := pending[0];
    assert w == window[k];
    var rest, after := pending[1..], memory[w.addr := w.value];
    assert rest == window[k + 1..];
    forall a | 0 <= a < |after| && forall i :: 0 <= i < |rest| ==> rest[i].addr != a
      ensures after[a] == contents[a]
    {
      if a == w.addr {
        forall j | k < j < |window| ensures window[j].addr != w.addr {
          assert rest[j - k - 1] == window[j];
        }
      } else {
        forall i | 0 <= i < |pending| ensures pending[i].addr != a {
          if i > 0 { assert rest[i - 1] == pending[i]; }
        }
      }
    }
  }

  lemma WriteEnters<V>(memory: seq<Word<V>>, pending: seq<Write<V>>, window: seq<Write<V>>,
                       contents: seq<Word<V>>, w: Write<V>)
    requires Coherent(memory, pending, window, contents) && |pending| < WINDOW && w.addr < |memory|
    ensures Coherent(memory, pending + [w], window[1..] + [w], contents[w.addr := w.value])
  {
    var win, pen, con := window[1..] + [w], pending + [w], contents[w.addr := w.value];
    assert pen == win[WINDOW - |pen|..];
    assert win[WINDOW - 1] == w;
    forall i | 0 <= i < |win| && forall j :: i < j < |win| ==> win[j].addr != win[i].addr
      ensures con[win[i].addr] == win[i].value
    {
      if i < WINDOW - 1 {
        assert win[i] == window[i + 1];
        forall j | i + 1 < j < |window| ensures window[j].addr != window[i + 1].addr {
          assert win[j - 1] == window[j];
        }
      }
    }
    forall a | 0 <= a < |memory| && forall i :: 0 <= i < |pen| ==> pen[i].addr != a
      ensures memory[a] == con[a]
    {
      assert pen[|pending|] == w;
      forall i | 0 <= i < |pending| ensures pending[i].addr != a {
        assert pen[i] == pending[i];
      }
    }
  }

  // ---------------------------------------------------------------------
  // The unit itself.
  // ---------------------------------------------------------------------

  // The number of tokens before the first one flagged last.
  function Length<V>(input: seq<Token<V>>): (n: nat)
    ensures n <= |input|
    ensures forall k :: 0 <= k < n ==> !input[k].last
    ensures n < |input| ==> input[n].last
  {
    if input == [] || input[0].last then 0 else
      var n := Length(input[1..]);
      assert forall k :: 0 < k <= n ==> input[k] == input[1..][k - 1];
      n + 1
  }

  function Payload<V>(input: seq<Token<V>>, n: nat): (us: seq<Update<V>>)
    requires n <= |input|
    ensures |us| == n && forall k :: 0 <= k < n ==> us[k] == input[k].data
  {
    seq(n, k requires 0 <= k < n => input[k].data)
  }

  class DstUnit<V> {
    const words: nat
    const gather: (V, V) -> V
    const zero: V
    const tmpVPropBuffer: array<Word<V>>
    var pending: seq<Write<V>>
    const lastValue: array<Word<V>>
    const lastIndex: array<nat>
    // What the buffer holds once every write has landed.
    ghost var contents: seq<Word<V>>

    ghost predicate Valid()
      reads this, tmpVPropBuffer, lastValue, lastIndex
    {
      && Shape()
      && Coherent(tmpVPropBuffer[..], pending, Window(), contents)
    }

    ghost predicate Shape()
      reads this, tmpVPropBuffer, lastValue, lastIndex
    {
      && words > 0 && tmpVPropBuffer.Length == words == |contents|
      && lastValue.Length == lastIndex.Length == WINDOW
      && lastValue != tmpVPropBuffer
    }

    // The forwarding window, oldest write first.
    ghost function Window(): (w: seq<Write<V>>)
      reads this, lastValue, lastIndex
      requires lastValue.Length == lastIndex.Length == WINDOW
    {
      [Write(lastIndex[0], lastValue[0]), Write(lastIndex[1], lastValue[1]),
       Write(lastIndex[2], lastValue[2]), Write(lastIndex[3], lastValue[3])]
    }

    constructor (words: nat, gather: (V, V) -> V, zero: V)
      requires words > 0
      ensures Idle()
      ensures this.words == words && this.gather == gather && this.zero == zero
      ensures fresh(tmpVPropBuffer) && fresh(lastValue) && fresh(lastIndex)
    {
      this.words, this.gather, this.zero := words, gather, zero;
      tmpVPropBuffer := new Word<V>[words](_ => Word(zero, zero));
      lastValue := new Word<V>[WINDOW](_ => Word(zero, zero));
      lastIndex := new nat[WINDOW](_ => 0);
      pending := [];
      contents := seq(words, _ => Word(zero, zero));
    }

    // Some of the writes under way land, in order; at most keep stay behind.
    method Land(keep: nat)
      requires Valid()
      modifies `pending, tmpVPropBuffer
      ensures Valid() && |pending| <= keep
    {
      while |pending| > keep
        invariant Valid()
      {
        OldestWriteLands(tmpVPropBuffer[..], pending, Window(), contents);
        tmpVPropBuffer[pending[0].addr] := pending[0].value;
        pending := pending[1..];
      }
    }

    // The scan of the window, the newest match winning.
    method Forward(addr: nat, read: Word<V>) returns (w: Word<V>)
      requires Shape()
      ensures w == Forwarded(Window(), addr, read)
    {
      w := read;
      var i := 0;
      while i < WINDOW
        invariant 0 <= i <= WINDOW
        invariant w == Forwarded(Window()[..i], addr, read)
      {
        assert Window()[..i + 1][..i] == Window()[..i];
        if lastIndex[i] == addr { w := lastValue[i]; }
        i := i + 1;
      }
      assert Window()[..WINDOW] == Window();
    }

    // The window moves up by one and takes the new write.
    method Remember(addr: nat, w: Word<V>)
      requires Shape()
      modifies lastValue, lastIndex
      ensures Shape()
      ensures Window() == old(Window())[1..] + [Write(addr, w)]
    {
      var i := 0;
      while i < WINDOW - 1
        invariant 0 <= i <= WINDOW - 1
        invariant forall k :: 0 <= k < i ==> lastValue[k] == old(lastValue[k + 1]) && lastIndex[k] == old(lastIndex[k + 1])
        invariant forall k :: i <= k < WINDOW ==> lastValue[k] == old(lastValue[k]) && lastIndex[k] == old(lastIndex[k])
      {
        lastValue[i] := lastValue[i + 1];
        lastIndex[i] := lastIndex[i + 1];
        i := i + 1;
      }
      lastValue[WINDOW - 1] := w;
      lastIndex[WINDOW - 1] := addr;
    }

    // A write-back starts on its way to the buffer and enters the window.
    method Issue(addr: nat, w: Word<V>)
      requires Valid() && addr < words
      modifies this`pending, this`contents, tmpVPropBuffer, lastValue, lastIndex
      ensures Valid()
      ensures contents == old(contents)[addr := w]
    {
      Land(WINDOW - 1);
      WriteEnters(tmpVPropBuffer[..], pending, Window(), contents, Write(addr, w));
      pending := pending + [Write(addr, w)];
      Remember(addr, w);
      contents := contents[addr := w];
    }

    // One token: at the moment of the read any number of writes, up to the
    // last four, may still be missing from the buffer.
    method Accumulate(u: Update<V>, missing: nat)
      requires Valid()
      modifies this`pending, this`contents, tmpVPropBuffer, lastValue, lastIndex
      ensures Valid()
      ensures contents == Applied(old(contents), u, gather)
    {
      Land(missing);
      if u.dst >= 0 {
        var idx := Index(u.dst, words);
        var addr := idx / 2;
        var w := Forward(addr, tmpVPropBuffer[addr]);
        ForwardingMasksTheLag(tmpVPropBuffer[..], pending, Window(), contents, addr);
        var updated := Bump(w, idx % 2 == 1, u.value, gather);
        Issue(addr, updated);
      }
    }

    // Sends the buffer out word by word, clearing one step behind.
    method Drain() returns (out: seq<Word<V>>)
      requires Valid() && pending == []
      modifies tmpVPropBuffer
      ensures Shape()
      ensures out == contents
      ensures AllZero(tmpVPropBuffer[..], zero)
    {
      out := [];
      var i := 0;
      while i < words
        invariant 0 <= i <= words
        invariant out == contents[..i]
        invariant forall k :: 0 <= k < i - 1 ==> tmpVPropBuffer[k] == Word(zero, zero)
        invariant forall k :: 0 <= k && i - 1 <= k < words ==> tmpVPropBuffer[k] == contents[k]
      {
        out := out + [tmpVPropBuffer[i]];
        if i > 0 { tmpVPropBuffer[i - 1] := Word(zero, zero); }
        i := i + 1;
      }
      tmpVPropBuffer[words - 1] := Word(zero, zero);
    }

    // Between runs: nothing under way and every word zero.
    ghost predicate Idle()
      reads this, tmpVPropBuffer, lastValue, lastIndex
    {
      Shape() && pending == [] && contents == tmpVPropBuffer[..] && AllZero(contents, zero)
    }

    // The start of a run empties the window; its entries name word 0 with
    // value zero, which is true only because the buffer is zero.
    method ClearWindow()
      requires Idle()
      modifies lastValue, lastIndex
      ensures Valid() && Idle()
    {
      var i := 0;
      while i < WINDOW
        invariant 0 <= i <= WINDOW
        invariant Shape()
        invariant forall k :: 0 <= k < i ==> lastValue[k] == Word(zero, zero) && lastIndex[k] == 0
      {
        lastValue[i] := Word(zero, zero);
        lastIndex[i] := 0;
        i := i + 1;
      }
    }

    // The loop up to the end flag, for any timing of the writes.
    method GatherAll(input: seq<Token<V>>)
      requires Valid() && Length(input) < |input|
      modifies this`pending, this`contents, tmpVPropBuffer, lastValue, lastIndex
      ensures Valid()
      ensures contents == Sequential(old(contents), Payload(input, Length(input)), Length(input), gather)
    {
      var k := 0;
      ghost var us := Payload(input, Length(input));
      while !input[k].last
        invariant 0 <= k <= Length(input)
        invariant Valid()
        invariant contents == Sequential(old(contents), us, k, gather)
        decreases |input| - k
      {
        var missing: nat := *;
        Accumulate(input[k].data, missing);
        k := k + 1;
      }
    }

    // One run: gathers every token before the end flag and sends the sums out.
    // It ends as it began, so the next run starts from an all-zero buffer.
    method Process(input: seq<Token<V>>) returns (out: seq<Word<V>>)
      requires Idle() && Length(input) < |input|
      modifies this`pending, this`contents, tmpVPropBuffer, lastValue, lastIndex
      ensures Idle()
      ensures |out| == words
      ensures forall idx :: 0 <= idx < 2 * words ==>
                Vertex(out, idx) == GatheredAt(Payload(input, Length(input)), Length(input), idx, words, gather, zero)
    {
      ghost var start := contents;
      ClearWindow();
      GatherAll(input);
      Land(0);
      out := Drain();
      contents := tmpVPropBuffer[..];
      forall idx | 0 <= idx < 2 * words
        ensures Vertex(out, idx) == GatheredAt(Payload(input, Length(input)), Length(input), idx, words, gather, zero)
      {
        SequentialGathers(start, Payload(input, Length(input)), Length(input), idx, gather, zero);
      }
    }
  }
}
