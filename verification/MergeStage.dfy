/** One stage of the coalescing chain: `merge_same_item` appends a column to a row of
    burst numbers unless the row already ends with it. */
module MergeStage {

  datatype Option<+T> = None | Some(value: T)

  /** A burst number; `last` marks the end of the row it belongs to. */
  datatype Item = Item(data: nat, last: bool)

  /** `src1`, `src2` with their valid bits, and whether `curr_state` is `ST_SRC2`. */
  datatype Stage = Stage(src1: Option<Item>, src2: Option<nat>, second: bool)

  const RESET: Stage := Stage(None, None, false)

  datatype Effect = Effect(stage: Stage, read1: bool, read2: bool, out: seq<Item>)

  /** One pass, given what the two non-blocking reads find. */
  function Iteration(st: Stage, in1: Option<Item>, in2: Option<nat>): Effect {
    var read1, read2 := st.src1.None? && in1.Some?, st.src2.None? && in2.Some?;
    var src1 := if read1 then in1 else st.src1;
    var src2 := if read2 then in2 else st.src2;
    if !st.second then
      if src1.Some? && src2.Some? then
        if !src1.value.last then
          Effect(Stage(None, src2, false), read1, read2, [Item(src1.value.data, false)])
        else if src1.value.data == src2.value then
          Effect(Stage(None, None, false), read1, read2, [Item(src1.value.data, true)])
        else
          Effect(Stage(None, src2, true), read1, read2, [Item(src1.value.data, false)])
      else
        Effect(Stage(src1, src2, false), read1, read2, [])
    else if src2.Some? then
      Effect(Stage(src1, None, false), read1, read2, [Item(src2.value, true)])
    else
      Effect(Stage(src1, src2, true), read1, read2, [])
  }

  class Merger {
    var src1Data: nat
    var src1Last: bool
    var src1Valid: bool
    var src2Data: nat
    var src2Valid: bool
    var inSrc2: bool

    constructor ()
      ensures Registers() == RESET
    {
      src1Valid, src2Valid, inSrc2 := false, false, false;
      src1Data, src2Data, src1Last := 0, 0, false;
    }

    ghost function Registers(): Stage
      reads this
    {
      Stage(if src1Valid then Some(Item(src1Data, src1Last)) else None,
            if src2Valid then Some(src2Data) else None,
            inSrc2)
    }

    /** One pass of the endless loop. */
    method Iterate(in1: Option<Item>, in2: Option<nat>) returns (read1: bool, read2: bool, out: seq<Item>)
      modifies this
      ensures Effect(Registers(), read1, read2, out) == Iteration(old(Registers()), in1, in2)
    {
      read1, read2, out := false, false, [];
      if !src1Valid && in1.Some? {
        read1 := true;
        src1Data, src1Last, src1Valid := in1.value.data, in1.value.last, true;
      }
      if !src2Valid && in2.Some? {
        read2 := true;
        src2Data, src2Valid := in2.value, true;
      }
      if !inSrc2 {
        if src1Valid && src2Valid {
          var last := false;
          if src1Last {
            if src1Data == src2Data {
              last := true;
              src2Valid := false;
            } else {
              inSrc2 := true;
            }
          }
          out := [Item(src1Data, last)];
          src1Valid, src1Last := false, false;
        }
      } else if src2Valid {
        out := [Item(src2Data, true)];
        inSrc2 := false;
        src2Valid := false;
      }
    }
  }

  // ----- what a stage computes, whatever the timing -----

  /** Rows completed by the first `n` items. */
  ghost function Rows(s: seq<Item>, n: nat): nat
    requires n <= |s|
  {
    if n == 0 then 0 else Rows(s, n - 1) + if s[n - 1].last then 1 else 0
  }

  /** What one item of a row becomes when the row's next column is `b`. */
  function Emit(x: Item, b: nat): seq<Item> {
    if !x.last then [Item(x.data, false)]
    else if x.data == b then [Item(x.data, true)]
    else [Item(x.data, false), Item(b, true)]
  }

  function ColumnAt(col: seq<nat>, r: nat): nat {
    if r < |col| then col[r] else 0
  }

  /** The stage's output for the first `n` items, row `r` meeting `col[r]`. */
  ghost function Merged(s: seq<Item>, n: nat, col: seq<nat>): seq<Item>
    requires n <= |s|
  {
    if n == 0 then [] else Merged(s, n - 1, col) + Emit(s[n - 1], ColumnAt(col, Rows(s, n - 1)))
  }

  /** Reading on does not change what the first items meant. */
  lemma {:induction false} RowsStable(s: seq<Item>, t: seq<Item>, n: nat)
    requires n <= |s| && s <= t
    ensures Rows(t, n) == Rows(s, n)
  {
    if n > 0 {
      RowsStable(s, t, n - 1);
    }
  }

  lemma {:induction false} MergedStable(s: seq<Item>, t: seq<Item>, n: nat, col: seq<nat>)
    requires n <= |s| && s <= t
    ensures Merged(t, n, col) == Merged(s, n, col)
  {
    if n > 0 {
      RowsStable(s, t, n - 1);
      MergedStable(s, t, n - 1, col);
    }
  }

  /** Items fully dealt with, or in `ST_SRC2` dealt with up to one item still owed. */
  function Done(st: Stage, taken1: nat): int {
    taken1 - if st.src1.Some? then 1 else 0
  }

  /** The registers and output of a stage that has read `taken1` items of `in1` and `taken2`
      of its column. */
  ghost predicate StageOk(st: Stage, in1: seq<Item>, taken1: nat, col: seq<nat>, taken2: nat, out: seq<Item>) {
    var n := Done(st, taken1);
    && taken1 <= |in1| && taken2 <= |col| && 0 <= n
    && (st.src1.Some? ==> st.src1.value == in1[taken1 - 1])
    && (st.src2.Some? ==> taken2 > 0 && st.src2.value == col[taken2 - 1])
    && (if st.second then
          st.src2.Some? && taken2 == Rows(in1, n) && out + [Item(st.src2.value, true)] == Merged(in1, n, col)
        else
          taken2 == Rows(in1, n) + (if st.src2.Some? then 1 else 0) && out == Merged(in1, n, col))
  }

  lemma StageResets(in1: seq<Item>, col: seq<nat>)
    ensures StageOk(RESET, in1, 0, col, 0, [])
  {
  }

  lemma ReadsKeep(st: Stage, in1: seq<Item>, taken1: nat, col: seq<nat>, taken2: nat, out: seq<Item>, a1: Option<Item>, a2: Option<nat>)
    returns (ld: Stage, t1: nat, t2: nat)
    requires StageOk(st, in1, taken1, col, taken2, out)
    requires a1.Some? ==> taken1 < |in1| && a1.value == in1[taken1]
    requires a2.Some? ==> taken2 < |col| && a2.value == col[taken2]
    ensures StageOk(ld, in1, t1, col, t2, out)
    ensures var e := Iteration(st, a1, a2);
            && e == Effect(Iteration(ld, None, None).stage, e.read1, e.read2, Iteration(ld, None, None).out)
            && t1 == taken1 + (if e.read1 then 1 else 0) && t2 == taken2 + (if e.read2 then 1 else 0)
  {
    var read1, read2 := st.src1.None? && a1.Some?, st.src2.None? && a2.Some?;
    ld := Stage(if read1 then a1 else st.src1, if read2 then a2 else st.src2, st.second);
    t1, t2 := taken1 + (if read1 then 1 else 0), taken2 + if read2 then 1 else 0;
  }

  lemma ActKeeps(st: Stage, in1: seq<Item>, taken1: nat, col: seq<nat>, taken2: nat, out: seq<Item>)
    requires StageOk(st, in1, taken1, col, taken2, out)
    ensures var e := Iteration(st, None, None);
            StageOk(e.stage, in1, taken1, col, taken2, out + e.out)
  {
    assert out + [] == out;
    if !st.second && st.src1.Some? && st.src2.Some? {
      var n := Done(st, taken1);
      assert Merged(in1, n + 1, col) == Merged(in1, n, col) + Emit(st.src1.value, st.src2.value);
      assert out + [Item(st.src1.value.data, false)] + [Item(st.src2.value, true)] ==
             out + [Item(st.src1.value.data, false), Item(st.src2.value, true)];
    }
  }

  /** Every pass keeps `StageOk`, whichever reads succeed. */
  lemma StageKeeps(st: Stage, in1: seq<Item>, taken1: nat, col: seq<nat>, taken2: nat, out: seq<Item>, a1: Option<Item>, a2: Option<nat>)
    requires StageOk(st, in1, taken1, col, taken2, out)
    requires a1.Some? ==> taken1 < |in1| && a1.value == in1[taken1]
    requires a2.Some? ==> taken2 < |col| && a2.value == col[taken2]
    ensures var e := Iteration(st, a1, a2);
            StageOk(e.stage, in1, taken1 + (if e.read1 then 1 else 0), col, taken2 + (if e.read2 then 1 else 0), out + e.out)
  {
    var ld, t1, t2 := ReadsKeep(st, in1, taken1, col, taken2, out, a1, a2);
    ActKeeps(ld, in1, t1, col, t2, out);
  }

  /** A longer input does not disturb a stage that has not read it. */
  lemma StageOkStable(st: Stage, in1: seq<Item>, more: seq<Item>, taken1: nat, col: seq<nat>, taken2: nat, out: seq<Item>)
    requires StageOk(st, in1, taken1, col, taken2, out) && in1 <= more
    ensures StageOk(st, more, taken1, col, taken2, out)
  {
    RowsStable(in1, more, Done(st, taken1));
    MergedStable(in1, more, Done(st, taken1), col);
  }

  /** A stage with nothing left to read and nothing to do has merged its whole input, if the
      input has a row for each column entry. */
  lemma {:induction false} RowsMonotone(s: seq<Item>, m: nat, n: nat)
    requires m <= n <= |s|
    ensures Rows(s, m) <= Rows(s, n)
    decreases n
  {
    if m < n {
      RowsMonotone(s, m, n - 1);
    }
  }

  lemma StageDone(st: Stage, in1: seq<Item>, col: seq<nat>, out: seq<Item>)
    requires StageOk(st, in1, |in1|, col, |col|, out)
    requires Iteration(st, None, None) == Effect(st, false, false, [])
    requires Rows(in1, |in1|) == |col| && (in1 != [] ==> in1[|in1| - 1].last)
    ensures out == Merged(in1, |in1|, col)
  {
    NothingPending(st, in1, col, out);
  }

  lemma NothingPending(st: Stage, in1: seq<Item>, col: seq<nat>, out: seq<Item>)
    requires StageOk(st, in1, |in1|, col, |col|, out)
    requires Iteration(st, None, None) == Effect(st, false, false, [])
    requires Rows(in1, |in1|) == |col| && (in1 != [] ==> in1[|in1| - 1].last)
    ensures st.src1.None? && !st.second
  {
    assert st.src1.Some? ==> Done(st, |in1|) == |in1| - 1;
  }
}
