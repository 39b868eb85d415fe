/** `writeProp`: putting the packets of the update stream back into vertex memory. */
module WriteProp {
  import opened Frames

  /** One memory write: word address and value. */
  datatype Write = Write(address: int, value: nat)

  /** The write that frame `f` calls for after `s`: none if it is a header. */
  ghost function WriteOf(s: seq<Frame>, f: Frame): seq<Write> {
    if At(s).Boundary? || Partial(s) == [] then []
    else [Write(Address(Partial(s)[0]) + |Partial(s)| - 1, f.data)]
  }

  /** The writes a stream of frames calls for, in order. */
  ghost function Writes(s: seq<Frame>): seq<Write> {
    if s == [] then [] else Writes(s[..|s| - 1]) + WriteOf(s[..|s| - 1], s[|s| - 1])
  }

  ghost predicate InRange(ws: seq<Write>, n: nat) {
    forall w :: w in ws ==> 0 <= w.address < n
  }

  /** The memory after a list of writes. */
  ghost function Store(mem: seq<nat>, ws: seq<Write>): (m: seq<nat>)
    ensures |m| == |mem|
  {
    if ws == [] then mem
    else
      var w, m := ws[|ws| - 1], Store(mem, ws[..|ws| - 1]);
      if 0 <= w.address < |mem| then m[w.address := w.value] else m
  }

  lemma WritesSnoc(s: seq<Frame>, f: Frame)
    ensures Writes(s + [f]) == Writes(s) + WriteOf(s, f)
  {
    assert (s + [f])[..|s|] == s;
  }

  lemma {:induction false} WritesPrefix(s: seq<Frame>, t: seq<Frame>)
    requires s <= t
    ensures Writes(s) <= Writes(t)
    decreases |t|
  {
    if s != t {
      WritesPrefix(s, t[..|t| - 1]);
    }
  }

  lemma {:induction false} PacketsPrefix(s: seq<Frame>, t: seq<Frame>)
    requires s <= t
    ensures Packets(s) <= Packets(t)
  {
    SelPrefix(s, t, 0);
  }

  lemma StoreSnoc(mem: seq<nat>, ws: seq<Write>, w: Write, all: seq<Write>)
    requires ws + [w] <= all && InRange(all, |mem|)
    ensures 0 <= w.address < |mem|
    ensures Store(mem, ws + [w]) == Store(mem, ws)[w.address := w.value]
  {
    assert w == all[|ws|];
    assert (ws + [w])[..|ws|] == ws;
  }

  /** The kernel's registers, and the writes it has made. */
  datatype Scanner = Scanner(first: bool, address: int, offset: int, packets: nat, writes: seq<Write>)

  function Feed(c: Scanner, f: Frame): Scanner {
    if c.first then Scanner(false, Address(f), 0, c.packets, c.writes)
    else Scanner(f.last, c.address, c.offset + 1, c.packets + if f.last then 1 else 0,
                 c.writes + [Write(c.address + c.offset, f.data)])
  }

  /** The registers after the first `n` frames. */
  ghost function Scan(s: seq<Frame>, n: nat): Scanner
    requires n <= |s|
  {
    if n == 0 then Scanner(true, 0, 0, 0, []) else Feed(Scan(s, n - 1), s[n - 1])
  }

  ghost predicate Means(c: Scanner, s: seq<Frame>) {
    && c.first == At(s).Boundary?
    && c.packets == |Packets(s)|
    && c.writes == Writes(s)
    && (!c.first ==> Partial(s) != [] && c.address == Address(Partial(s)[0]) && c.offset == |Partial(s)| - 1)
    && (c.first ==> Partial(s) == [])
  }

  lemma FeedMeaning(c: Scanner, s: seq<Frame>, f: Frame)
    requires Means(c, s)
    ensures Means(Feed(c, f), s + [f])
  {
    Snoc(s, f, 0);
    WritesSnoc(s, f);
  }

  /** The registers against the packet structure of what was read. */
  lemma {:induction false} ScanMeaning(s: seq<Frame>, n: nat)
    requires n <= |s|
    ensures Means(Scan(s, n), s[..n])
  {
    if n > 0 {
      ScanMeaning(s, n - 1);
      FeedMeaning(Scan(s, n - 1), s[..n - 1], s[n - 1]);
      assert s[..n - 1] + [s[n - 1]] == s[..n];
    }
  }

  lemma WholeScan(s: seq<Frame>)
    ensures Means(Scan(s, |s|), s)
  {
    ScanMeaning(s, |s|);
    assert s[..|s|] == s;
  }

  lemma ScanIsWrites(s: seq<Frame>)
    ensures Scan(s, |s|).writes == Writes(s)
  {
    WholeScan(s);
  }

  lemma {:induction false} ScanAgrees(s: seq<Frame>, t: seq<Frame>, n: nat)
    requires n <= |s| && s <= t
    ensures Scan(s, n) == Scan(t, n)
  {
    if n > 0 {
      ScanAgrees(s, t, n - 1);
    }
  }

  lemma {:induction false} ScanGrows(s: seq<Frame>, m: nat, n: nat)
    requires m <= n <= |s|
    ensures Scan(s, m).writes <= Scan(s, n).writes
    decreases n
  {
    if m < n {
      ScanGrows(s, m, n - 1);
    }
  }

  /** One data frame: its word goes to the next address of the packet. */
  method StoreWord(mem: array<nat>, at: int, data: nat, ghost before: seq<nat>, ghost ws: seq<Write>, ghost all: seq<Write>)
    requires InRange(all, mem.Length) && mem[..] == Store(before, ws) && |before| == mem.Length
    requires ws + [Write(at, data)] <= all
    modifies mem
    ensures mem[..] == Store(before, ws + [Write(at, data)])
  {
    StoreSnoc(before, ws, Write(at, data), all);
    mem[at] := data;
  }

  /** One frame: a header sets the registers, a data frame is stored. */
  method Accept(mem: array<nat>, packetIn: Frame, first0: bool, address0: int, offset0: int, processed0: nat,
                ghost before: seq<nat>, ghost c: Scanner, ghost all: seq<Write>)
    returns (first: bool, address: int, offset: int, processed: nat)
    requires c == Scanner(first0, address0, offset0, processed0, c.writes)
    requires InRange(all, mem.Length) && mem[..] == Store(before, c.writes) && |before| == mem.Length
    requires Feed(c, packetIn).writes <= all
    modifies mem
    ensures Feed(c, packetIn) == Scanner(first, address, offset, processed, Feed(c, packetIn).writes)
    ensures mem[..] == Store(before, Feed(c, packetIn).writes)
  {
    first, address, offset, processed := first0, address0, offset0, processed0;
    if first {
      address := Address(packetIn);
      offset := 0;
      first := false;
    } else {
      StoreWord(mem, address + offset, packetIn.data, before, c.writes, all);
      offset := offset + 1;
      if packetIn.last {
        first := true;
        processed := processed + 1;
      }
    }
  }

  /** The kernel: stops at the end of the `packetNum`-th packet.  The source tests the count
      after each frame, which is the same since the host asks for at least one packet.  A read from an empty
      stream blocks, so it returns only on a stream that holds that many packets. */
  method Run(mem: array<nat>, update: seq<Frame>, packetNum: nat) returns (consumed: nat)
    requires 1 <= packetNum <= Scan(update, |update|).packets
    requires InRange(Scan(update, |update|).writes, mem.Length)
    modifies mem
    ensures consumed <= |update|
    ensures Scan(update, consumed).first && Scan(update, consumed).packets == packetNum
    ensures mem[..] == Store(old(mem[..]), Scan(update, consumed).writes)
  {
    var address, offset, processed: nat := 0, 0, 0;
    var first := true;
    ghost var before := mem[..];
    ghost var c, all := Scan(update, 0), Scan(update, |update|).writes;
    consumed := 0;
    while processed < packetNum
      invariant consumed <= |update| && processed <= packetNum
      invariant processed == packetNum ==> first
      invariant c == Scan(update, consumed)
      invariant c == Scanner(first, address, offset, processed, c.writes)
      invariant mem[..] == Store(before, c.writes)
      decreases |update| - consumed
    {
      ScanNext(update, consumed, packetNum);
      first, address, offset, processed := Accept(mem, update[consumed], first, address, offset, processed, before, c, all);
      c := Scan(update, consumed + 1);
      consumed := consumed + 1;
    }
  }

  /** Packets are still missing, so there is a frame to come. */
  lemma ScanNext(update: seq<Frame>, n: nat, packetNum: nat)
    requires n <= |update| && Scan(update, n).packets < packetNum <= Scan(update, |update|).packets
    ensures n < |update| && Scan(update, n + 1) == Feed(Scan(update, n), update[n])
    ensures Scan(update, n + 1).writes <= Scan(update, |update|).writes
    ensures Scan(update, n + 1).packets <= packetNum
    ensures Scan(update, n + 1).packets == packetNum ==> Scan(update, n + 1).first
  {
    if n < |update| { ScanGrows(update, n + 1, |update|); }
  }

  /** A stream of exactly that many packets is used up. */
  lemma {:induction false} StopsAtTheEnd(s: seq<Frame>, t: seq<Frame>)
    requires s <= t && At(s).Boundary? && |Packets(s)| == |Packets(t)|
    requires At(t).Boundary?
    ensures s == t
  {
    if s != t {
      var front := t[..|t| - 1];
      assert t == front + [t[|t| - 1]];
      Snoc(front, t[|t| - 1], 0);
      PacketsPrefix(s, front);
    }
  }

  /** Cutting out an origin keeps that origin's writes. */
  lemma {:induction false} SelWrites(s: seq<Frame>, o: int, w: Write)
    ensures w in Writes(Sel(s, o)) ==> w in Writes(s)
    ensures w in Writes(s) ==> exists x :: w in Writes(Sel(s, x))
  {
    if s != [] {
      var front, f := s[..|s| - 1], s[|s| - 1];
      assert s == front + [f];
      SelWrites(front, o, w);
      WritesSnoc(front, f);
      WrittenBySel(front, f, o);
      if w in Writes(front) {
        var x :| w in Writes(Sel(front, x));
        WrittenBySel(front, f, x);
        assert w in Writes(Sel(s, x));
      } else if w in Writes(s) {
        WrittenBySel(front, f, At(front).origin);
        assert w in Writes(Sel(s, At(front).origin));
      }
    }
  }

  lemma SamePlaceSameWrite(s: seq<Frame>, t: seq<Frame>, f: Frame)
    requires At(s) == At(t) && Partial(s) == Partial(t)
    ensures WriteOf(s, f) == WriteOf(t, f)
  {
  }

  lemma WriteOfSel(s: seq<Frame>, f: Frame, o: int)
    ensures WriteOf(Sel(s, o), f) == if At(s) == Inside(o) then WriteOf(s, f) else []
  {
    SelCursor(s, o);
    SelPartial(s, o);
    if At(s) == Inside(o) {
      SamePlaceSameWrite(s, Sel(s, o), f);
    }
  }

  lemma WrittenBySel(s: seq<Frame>, f: Frame, o: int)
    ensures Writes(Sel(s + [f], o)) == Writes(Sel(s, o)) + if At(s) == Inside(o) then WriteOf(s, f) else []
  {
    WriteOfSel(s, f, o);
    Snoc(s, f, o);
    if OriginOf(At(s), f) == o {
      WritesSnoc(Sel(s, o), f);
    }
  }

  /** When no two writes disagree, the order does not matter: a written word ends up with the
      one value written to it, any other word is untouched. */
  lemma {:induction false} StoreAgreeing(mem: seq<nat>, ws: seq<Write>, a: nat)
    requires a < |mem|
    requires forall v, w :: v in ws && w in ws && v.address == a && w.address == a ==> v == w
    ensures forall w :: w in ws && w.address == a ==> Store(mem, ws)[a] == w.value
    ensures (forall w :: w in ws ==> w.address != a) ==> Store(mem, ws)[a] == mem[a]
  {
    if ws != [] {
      StoreAgreeing(mem, ws[..|ws| - 1], a);
    }
  }
}
