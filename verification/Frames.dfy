/** Network frames of the ring and the framing discipline read off a stream of them.

    A packet is a header frame followed by data frames, the last of which carries
    `last`.  Nothing marks a header as such: whether a frame is a header depends only
    on what precedes it on the stream.  `Cursor` is that context, and `Sel` cuts the
    frames of one origin's packets out of a stream. */
module Frames {

  const WORD32: nat := 0x1_0000_0000
  const WORD64: nat := 0x1_0000_0000_0000_0000

  /** One 512-bit AXI stream beat (`burst_dest`). */
  datatype Frame = Frame(data: nat, last: bool, keep: int, dest: int)

  /** The low 32 bits of a header, assigned to a C `int`. */
  function NodeId(f: Frame): int {
    AsInt32(f.data % WORD32)
  }

  /** The next 32 bits of a header, assigned to a C `int`. */
  function Address(f: Frame): int {
    AsInt32((f.data / WORD32) % WORD32)
  }

  function AsInt32(x: nat): int {
    if x < 0x8000_0000 then x else x - WORD32
  }

  /** Where a stream stands: between packets, or inside a packet of some origin. */
  datatype Cursor = Boundary | Inside(origin: int)

  function After(c: Cursor, f: Frame): Cursor {
    if c.Boundary? then Inside(NodeId(f))
    else if f.last then Boundary
    else c
  }

  /** The origin of the packet a frame belongs to. */
  function OriginOf(c: Cursor, f: Frame): int {
    if c.Boundary? then NodeId(f) else c.origin
  }

  ghost function At(s: seq<Frame>): Cursor {
    if s == [] then Boundary else After(At(s[..|s| - 1]), s[|s| - 1])
  }

  /** The frames of `s` that belong to packets of origin `o`, in order. */
  ghost function Sel(s: seq<Frame>, o: int): seq<Frame> {
    if s == [] then []
    else
      var front, f := s[..|s| - 1], s[|s| - 1];
      if OriginOf(At(front), f) == o then Sel(front, o) + [f] else Sel(front, o)
  }

  /** How many packets of origin `o` have begun in `s`. */
  ghost function Begun(s: seq<Frame>, o: int): nat {
    if s == [] then 0
    else
      var front, f := s[..|s| - 1], s[|s| - 1];
      Begun(front, o) + if At(front).Boundary? && NodeId(f) == o then 1 else 0
  }

  /** The frames of the packet `s` is inside of; empty between packets. */
  ghost function Partial(s: seq<Frame>): seq<Frame> {
    if s == [] || At(s).Boundary? then [] else Partial(s[..|s| - 1]) + [s[|s| - 1]]
  }

  /** The complete packets of `s`, in order. */
  ghost function Packets(s: seq<Frame>): seq<seq<Frame>> {
    if s == [] then []
    else
      var front, f := s[..|s| - 1], s[|s| - 1];
      if At(s).Boundary? then Packets(front) + [Partial(front) + [f]] else Packets(front)
  }

  /** The packets of `ps` whose header names origin `o`. */
  ghost function FromOrigin(ps: seq<seq<Frame>>, o: int): seq<seq<Frame>> {
    if ps == [] then []
    else
      var front, p := ps[..|ps| - 1], ps[|ps| - 1];
      if p != [] && NodeId(p[0]) == o then FromOrigin(front, o) + [p] else FromOrigin(front, o)
  }

  lemma Snoc(s: seq<Frame>, f: Frame, o: int)
    ensures At(s + [f]) == After(At(s), f)
    ensures Sel(s + [f], o) == if OriginOf(At(s), f) == o then Sel(s, o) + [f] else Sel(s, o)
    ensures Begun(s + [f], o) == Begun(s, o) + if At(s).Boundary? && NodeId(f) == o then 1 else 0
    ensures Partial(s + [f]) == if After(At(s), f).Boundary? then [] else Partial(s) + [f]
    ensures Packets(s + [f]) ==
            if After(At(s), f).Boundary? then Packets(s) + [Partial(s) + [f]] else Packets(s)
  {
    assert (s + [f])[..|s|] == s;
  }

  /** Inside a packet, its frames so far start with the header that named its origin. */
  lemma {:induction false} PartialHeader(s: seq<Frame>)
    ensures At(s).Inside? ==> Partial(s) != [] && NodeId(Partial(s)[0]) == At(s).origin
    ensures At(s).Boundary? ==> Partial(s) == []
  {
    if s != [] {
      var front, f := s[..|s| - 1], s[|s| - 1];
      PartialHeader(front);
    }
  }

  /** Cutting out one origin keeps that origin's framing. */
  lemma {:induction false} SelCursor(s: seq<Frame>, o: int)
    ensures At(Sel(s, o)) == if At(s) == Inside(o) then Inside(o) else Boundary
  {
    if s != [] {
      var front, f := s[..|s| - 1], s[|s| - 1];
      SelCursor(front, o);
      Snoc(Sel(front, o), f, o);
    }
  }

  lemma {:induction false} SelPartial(s: seq<Frame>, o: int)
    ensures Partial(Sel(s, o)) == if At(s) == Inside(o) then Partial(s) else []
  {
    if s != [] {
      var front, f := s[..|s| - 1], s[|s| - 1];
      SelPartial(front, o);
      SelCursor(front, o);
      PartialHeader(front);
      Snoc(Sel(front, o), f, o);
    }
  }

  /** Cutting out one origin keeps that origin's packet count. */
  lemma {:induction false} SelBegun(s: seq<Frame>, o: int)
    ensures Begun(Sel(s, o), o) == Begun(s, o)
  {
    if s != [] {
      var front, f := s[..|s| - 1], s[|s| - 1];
      SelBegun(front, o);
      SelCursor(front, o);
      Snoc(Sel(front, o), f, o);
    }
  }

  /** Cutting out one origin frame by frame is the same as keeping its whole packets. */
  lemma {:induction false} SelPackets(s: seq<Frame>, o: int)
    ensures Packets(Sel(s, o)) == FromOrigin(Packets(s), o)
  {
    if s != [] {
      var front, f := s[..|s| - 1], s[|s| - 1];
      SelPackets(front, o);
      SelCursor(front, o);
      SelPartial(front, o);
      PartialHeader(front);
      Snoc(Sel(front, o), f, o);
      if After(At(front), f).Boundary? {
        FromOriginSnoc(Packets(front), Partial(front) + [f], o);
      }
    }
  }

  lemma FromOriginSnoc(ps: seq<seq<Frame>>, p: seq<Frame>, o: int)
    ensures FromOrigin(ps + [p], o) ==
            if p != [] && NodeId(p[0]) == o then FromOrigin(ps, o) + [p] else FromOrigin(ps, o)
  {
    assert (ps + [p])[..|ps|] == ps;
  }

  /** Reading further never takes frames back. */
  lemma {:induction false} SelPrefix(s: seq<Frame>, t: seq<Frame>, o: int)
    requires s <= t
    ensures Sel(s, o) <= Sel(t, o)
    ensures Begun(s, o) <= Begun(t, o)
    ensures Packets(s) <= Packets(t)
    decreases |t|
  {
    if s != t {
      SelPrefix(s, t[..|t| - 1], o);
    }
  }

  lemma {:induction false} SelLength(s: seq<Frame>, o: int)
    ensures |Sel(s, o)| <= |s|
  {
    if s != [] {
      SelLength(s[..|s| - 1], o);
    }
  }

  /** If every frame of `s` is of origin `o`, so is every frame of a prefix. */
  lemma {:induction false} SelWhole(s: seq<Frame>, n: nat, o: int)
    requires n <= |s| && Sel(s, o) == s
    ensures Sel(s[..n], o) == s[..n]
    decreases |s|
  {
    if n < |s| {
      var front := s[..|s| - 1];
      SelLength(front, o);
      assert Sel(front, o) == front;
      SelWhole(front, n, o);
      assert front[..n] == s[..n];
    } else {
      assert s[..n] == s;
    }
  }

  /** A stream of one origin shows no frame of another. */
  lemma {:induction false} SelOther(s: seq<Frame>, o: int, other: int)
    requires Sel(s, o) == s && other != o
    ensures Sel(s, other) == []
    ensures At(s).Inside? ==> At(s).origin == o
  {
    if s != [] {
      SelWhole(s, |s| - 1, o);
      SelOther(s[..|s| - 1], o, other);
      SelLength(s[..|s| - 1], o);
    }
  }
}
