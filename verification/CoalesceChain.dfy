/** The whole coalescer as a network: a chain of merge stages and the filter, each free to
    run at any time on whatever has arrived. */
module CoalesceChain {
  import opened MergeStage
  import opened Coalesce

  /** `filter_same_item`: the last item passed on, if any. */
  datatype FilterEffect = FilterEffect(last: Option<nat>, read: bool, out: seq<nat>)

  function FilterIteration(last: Option<nat>, arrived: Option<Item>): FilterEffect {
    match arrived
    case None => FilterEffect(last, false, [])
    case Some(x) =>
      if last == Some(x.data) then FilterEffect(last, true, []) else FilterEffect(Some(x.data), true, [x.data])
  }

  /** The filter's loop body. */
  class Filter {
    var running: bool
    var lastItem: nat

    ghost function Last(): Option<nat>
      reads this
    {
      if running then Some(lastItem) else None
    }

    constructor ()
      ensures Last() == None
    {
      running, lastItem := false, 0;
    }

    method Iterate(arrived: Option<Item>) returns (read: bool, out: seq<nat>)
      modifies this
      ensures FilterEffect(Last(), read, out) == FilterIteration(old(Last()), arrived)
    {
      read, out := arrived.Some?, [];
      if arrived.Some? {
        var curr := arrived.value.data;
        if !running {
          running, lastItem := true, curr;
          out := [curr];
        } else if curr != lastItem {
          out := [curr];
          lastItem := curr;
        }
      }
    }
  }

  /** A stage with how much it has read of the stage before it and of its column. */
  datatype Unit = Unit(stage: Stage, taken1: nat, taken2: nat)

  /** `log[i]` is everything stage `i` has written. */
  datatype Chain = Chain(unit: seq<Unit>, log: seq<seq<Item>>, last: Option<nat>, filtered: nat, out: seq<nat>)

  /** Columns of equal height: `cols[c][r]` is word `c` of row `r`. */
  ghost predicate ValidColumns(cols: seq<seq<nat>>) {
    |cols| >= 2 && forall c :: 0 <= c < |cols| ==> |cols[c]| == |cols[0]|
  }

  /** The first column as the first stage sees it: every item ends a row. */
  function Singles(col: seq<nat>): (rows: seq<seq<nat>>)
    ensures |rows| == |col| && forall r :: 0 <= r < |rows| ==> rows[r] == [col[r]]
  {
    seq(|col|, r requires 0 <= r < |col| => [col[r]])
  }

  ghost function InputOf(cols: seq<seq<nat>>, ch: Chain, i: nat): seq<Item>
    requires |cols| > 0 && i <= |ch.log|
  {
    if i == 0 then Stream(Singles(cols[0])) else ch.log[i - 1]
  }

  ghost predicate Shaped(cols: seq<seq<nat>>, ch: Chain) {
    && |ch.unit| == |ch.log| == |cols| - 1
    && |cols| >= 2
  }

  ghost predicate UnitOk(cols: seq<seq<nat>>, ch: Chain, i: nat)
    requires Shaped(cols, ch) && i < |ch.unit|
  {
    var u := ch.unit[i];
    StageOk(u.stage, InputOf(cols, ch, i), u.taken1, cols[i + 1], u.taken2, ch.log[i])
  }

  ghost predicate FilterOk(cols: seq<seq<nat>>, ch: Chain)
    requires Shaped(cols, ch)
  {
    var seen := ch.log[|ch.log| - 1];
    && ch.filtered <= |seen|
    && ch.out == Dedup(Data(seen)[..ch.filtered])
    && ch.last == (if ch.filtered == 0 then None else Some(seen[ch.filtered - 1].data))
  }

  ghost predicate Inv(cols: seq<seq<nat>>, ch: Chain) {
    && Shaped(cols, ch)
    && (forall i :: 0 <= i < |ch.unit| ==> UnitOk(cols, ch, i))
    && FilterOk(cols, ch)
  }

  ghost function Initial(cols: seq<seq<nat>>): Chain
    requires |cols| >= 1
  {
    Chain(seq(|cols| - 1, _ => Unit(RESET, 0, 0)), seq(|cols| - 1, _ => []), None, 0, [])
  }

  ghost function Next<T>(s: seq<T>, n: nat, visible: bool): Option<T> {
    if visible && n < |s| then Some(s[n]) else None
  }

  /** Stage `i` runs once; each of its reads may or may not find what is there. */
  ghost function StageStep(cols: seq<seq<nat>>, ch: Chain, i: nat, v1: bool, v2: bool): Chain
    requires Shaped(cols, ch) && i < |ch.unit|
  {
    var u := ch.unit[i];
    var e := Iteration(u.stage, Next(InputOf(cols, ch, i), u.taken1, v1), Next(cols[i + 1], u.taken2, v2));
    ch.(unit := ch.unit[i := Unit(e.stage, u.taken1 + (if e.read1 then 1 else 0), u.taken2 + (if e.read2 then 1 else 0))],
        log := ch.log[i := ch.log[i] + e.out])
  }

  ghost function FilterStep(cols: seq<seq<nat>>, ch: Chain, v: bool): Chain
    requires Shaped(cols, ch)
  {
    var e := FilterIteration(ch.last, Next(ch.log[|ch.log| - 1], ch.filtered, v));
    ch.(last := e.last, filtered := ch.filtered + (if e.read then 1 else 0), out := ch.out + e.out)
  }

  ghost predicate Steps(cols: seq<seq<nat>>, ch: Chain, ch': Chain) {
    && Shaped(cols, ch)
    && ((exists v :: ch' == FilterStep(cols, ch, v))
        || exists i: nat, v1, v2 :: i < |ch.unit| && ch' == StageStep(cols, ch, i, v1, v2))
  }

  ghost predicate IsRun(cols: seq<seq<nat>>, run: seq<Chain>) {
    && |cols| >= 1 && run != [] && run[0] == Initial(cols)
    && forall t :: 0 <= t < |run| - 1 ==> Steps(cols, run[t], run[t + 1])
  }

  /** No stage and no filter can do anything, whatever has arrived. */
  ghost predicate Stuck(cols: seq<seq<nat>>, ch: Chain)
    requires Shaped(cols, ch)
  {
    && FilterStep(cols, ch, true) == ch
    && (forall i: nat :: i < |ch.unit| ==> StageStep(cols, ch, i, true, true) == ch)
    && (forall i: nat :: i < |ch.unit| ==> StageStep(cols, ch, i, false, false) == ch)
  }

  // ----- every run -----

  lemma InitialInv(cols: seq<seq<nat>>)
    requires ValidColumns(cols)
    ensures Inv(cols, Initial(cols))
  {
    var ch := Initial(cols);
    forall i | 0 <= i < |ch.unit| ensures UnitOk(cols, ch, i) {
      StageResets(InputOf(cols, ch, i), cols[i + 1]);
    }
  }

  lemma StageStepUnit(cols: seq<seq<nat>>, ch: Chain, i: nat, v1: bool, v2: bool, j: nat)
    requires Shaped(cols, ch) && i < |ch.unit| && UnitOk(cols, ch, i) && j < |ch.unit| && UnitOk(cols, ch, j)
    ensures UnitOk(cols, StageStep(cols, ch, i, v1, v2), j)
  {
    if j == i { OwnStageStep(cols, ch, i, v1, v2); } else { OtherStageStep(cols, ch, i, v1, v2, j); }
  }

  lemma OwnStageStep(cols: seq<seq<nat>>, ch: Chain, i: nat, v1: bool, v2: bool)
    requires Shaped(cols, ch) && i < |ch.unit| && UnitOk(cols, ch, i)
    ensures UnitOk(cols, StageStep(cols, ch, i, v1, v2), i)
  {
    var u := ch.unit[i];
    assert InputOf(cols, StageStep(cols, ch, i, v1, v2), i) == InputOf(cols, ch, i);
    StageKeeps(u.stage, InputOf(cols, ch, i), u.taken1, cols[i + 1], u.taken2, ch.log[i],
               Next(InputOf(cols, ch, i), u.taken1, v1), Next(cols[i + 1], u.taken2, v2));
  }

  lemma OtherStageStep(cols: seq<seq<nat>>, ch: Chain, i: nat, v1: bool, v2: bool, j: nat)
    requires Shaped(cols, ch) && i < |ch.unit| && j < |ch.unit| && i != j && UnitOk(cols, ch, j)
    ensures UnitOk(cols, StageStep(cols, ch, i, v1, v2), j)
  {
    hide StageOk, Iteration;
    var u, ch' := ch.unit[j], StageStep(cols, ch, i, v1, v2);
    StageOkStable(u.stage, InputOf(cols, ch, j), InputOf(cols, ch', j), u.taken1, cols[j + 1], u.taken2, ch.log[j]);
  }

  lemma StageStepInv(cols: seq<seq<nat>>, ch: Chain, i: nat, v1: bool, v2: bool)
    requires Inv(cols, ch) && i < |ch.unit|
    ensures Inv(cols, StageStep(cols, ch, i, v1, v2))
  {
    var ch' := StageStep(cols, ch, i, v1, v2);
    forall j | 0 <= j < |ch'.unit| ensures UnitOk(cols, ch', j) {
      StageStepUnit(cols, ch, i, v1, v2, j);
    }
    var n := |ch.log| - 1;
    assert Data(ch'.log[n])[..ch.filtered] == Data(ch.log[n])[..ch.filtered];
  }

  lemma FilterStepInv(cols: seq<seq<nat>>, ch: Chain, v: bool)
    requires Inv(cols, ch)
    ensures Inv(cols, FilterStep(cols, ch, v))
  {
    hide StageOk, FilterOk;
    var ch' := FilterStep(cols, ch, v);
    forall j | 0 <= j < |ch'.unit| ensures UnitOk(cols, ch', j) {
      assert UnitOk(cols, ch, j);
      assert InputOf(cols, ch', j) == InputOf(cols, ch, j);
    }
    FilterStepOk(cols, ch, v);
  }

  lemma DedupNext(s: seq<nat>, n: nat)
    requires n < |s|
    ensures Dedup(s[..n + 1]) == Dedup(s[..n]) + if n > 0 && s[n - 1] == s[n] then [] else [s[n]]
  {
    assert s[..n + 1] == s[..n] + [s[n]];
    DedupSnoc(s[..n], s[n]);
  }

  lemma {:induction false} FilterStepOk(cols: seq<seq<nat>>, ch: Chain, v: bool)
    requires Shaped(cols, ch) && FilterOk(cols, ch)
    ensures FilterOk(cols, FilterStep(cols, ch, v))
  {
    hide Dedup;
    var seen := Data(ch.log[|ch.log| - 1]);
    assert ch.out + [] == ch.out;
    if v && ch.filtered < |seen| { DedupNext(seen, ch.filtered); }
  }

  lemma {:induction false} RunKeepsInv(cols: seq<seq<nat>>, run: seq<Chain>, t: nat)
    requires ValidColumns(cols) && IsRun(cols, run) && t < |run|
    ensures Inv(cols, run[t])
  {
    if t == 0 {
      InitialInv(cols);
    } else {
      RunKeepsInv(cols, run, t - 1);
      var ch := run[t - 1];
      assert Steps(cols, ch, run[t - 1 + 1]);
      if exists v :: run[t] == FilterStep(cols, ch, v) {
        var v :| run[t] == FilterStep(cols, ch, v);
        FilterStepInv(cols, ch, v);
      } else {
        var i: nat, v1, v2 :| i < |ch.unit| && run[t] == StageStep(cols, ch, i, v1, v2);
        StageStepInv(cols, ch, i, v1, v2);
      }
    }
  }

  // ----- the end of a run -----

  /** Row `r` of the columns up to column `c`. */
  function RowUpTo(cols: seq<seq<nat>>, c: nat, r: nat): (row: seq<nat>)
    requires c < |cols| && forall k :: 0 <= k < |cols| ==> r < |cols[k]|
    ensures |row| == c + 1 && forall k :: 0 <= k <= c ==> row[k] == cols[k][r]
  {
    seq(c + 1, k requires 0 <= k <= c => cols[k][r])
  }

  /** The rows as the stage after column `c` leaves them. */
  function RowsAfter(cols: seq<seq<nat>>, c: nat): (rows: seq<seq<nat>>)
    requires ValidColumns(cols) && c < |cols|
    ensures |rows| == |cols[0]|
    ensures forall r :: 0 <= r < |rows| ==> rows[r] == Dedup(RowUpTo(cols, c, r)) && rows[r] != []
  {
    seq(|cols[0]|, r requires 0 <= r < |cols[0]| => Dedup(RowUpTo(cols, c, r)))
  }

  lemma RowsAfterNext(cols: seq<seq<nat>>, c: nat)
    requires ValidColumns(cols) && c + 1 < |cols|
    ensures RowsAfter(cols, c + 1) == ExtendAll(RowsAfter(cols, c), cols[c + 1])
  {
    var a, b := RowsAfter(cols, c + 1), ExtendAll(RowsAfter(cols, c), cols[c + 1]);
    forall r | 0 <= r < |a| ensures a[r] == b[r] {
      ExtendRow(cols, c, r);
    }
  }

  lemma ExtendRow(cols: seq<seq<nat>>, c: nat, r: nat)
    requires ValidColumns(cols) && c + 1 < |cols| && r < |cols[0]|
    ensures Dedup(RowUpTo(cols, c + 1, r)) == Extend(Dedup(RowUpTo(cols, c, r)), cols[c + 1][r])
  {
    var row := RowUpTo(cols, c, r);
    assert RowUpTo(cols, c + 1, r) == row + [cols[c + 1][r]];
    ExtendDedup(row, cols[c + 1][r]);
  }

  lemma ExtendDedup(row: seq<nat>, x: nat)
    requires row != []
    ensures Dedup(row + [x]) == Extend(Dedup(row), x)
  {
    DedupSnoc(row, x);
  }

  lemma StuckUnit(cols: seq<seq<nat>>, ch: Chain, i: nat)
    requires Inv(cols, ch) && Stuck(cols, ch) && i < |ch.unit|
    requires var s := InputOf(cols, ch, i); Rows(s, |s|) == |cols[i + 1]| && (s != [] ==> s[|s| - 1].last)
    ensures ch.log[i] == Merged(InputOf(cols, ch, i), |InputOf(cols, ch, i)|, cols[i + 1])
  {
    var u, s := ch.unit[i], InputOf(cols, ch, i);
    assert UnitOk(cols, ch, i);
    assert StageStep(cols, ch, i, true, true) == ch && StageStep(cols, ch, i, false, false) == ch;
    StuckRegisters(cols, ch, i);
    WaitingStage(u.stage, s, u.taken1, cols[i + 1], u.taken2, ch.log[i]);
    StageDone(u.stage, s, cols[i + 1], ch.log[i]);
  }

  lemma StuckRegisters(cols: seq<seq<nat>>, ch: Chain, i: nat)
    requires Shaped(cols, ch) && i < |ch.unit|
    requires StageStep(cols, ch, i, true, true) == ch && StageStep(cols, ch, i, false, false) == ch
    ensures Iteration(ch.unit[i].stage, None, None) == Effect(ch.unit[i].stage, false, false, [])
    ensures ch.unit[i].taken1 < |InputOf(cols, ch, i)| ==> ch.unit[i].stage.src1.Some?
    ensures ch.unit[i].taken2 < |cols[i + 1]| ==> ch.unit[i].stage.src2.Some?
  {
    var u := ch.unit[i];
    var e, f := Iteration(u.stage, None, None),
                Iteration(u.stage, Next(InputOf(cols, ch, i), u.taken1, true), Next(cols[i + 1], u.taken2, true));
    assert ch.unit[i := Unit(e.stage, u.taken1, u.taken2)][i] == u;
    assert |ch.log[i] + e.out| == |ch.log[i]|;
    assert ch.unit[i := Unit(f.stage, u.taken1 + (if f.read1 then 1 else 0), u.taken2 + (if f.read2 then 1 else 0))][i] == u;
  }

  /** A stage that waits with more to read on one side has used up the other: impossible on
      inputs that match row for row. */
  lemma WaitingStage(st: Stage, s: seq<Item>, taken1: nat, col: seq<nat>, taken2: nat, out: seq<Item>)
    requires StageOk(st, s, taken1, col, taken2, out)
    requires Iteration(st, None, None) == Effect(st, false, false, [])
    requires taken1 < |s| ==> st.src1.Some?
    requires taken2 < |col| ==> st.src2.Some?
    requires Rows(s, |s|) == |col| && (s != [] ==> s[|s| - 1].last)
    ensures taken1 == |s| && taken2 == |col|
  {
    RowsMonotone(s, Done(st, taken1), if taken1 < |s| then |s| - 1 else |s|);
    assert s != [] ==> Rows(s, |s|) == Rows(s, |s| - 1) + 1;
  }

  lemma FirstRows(cols: seq<seq<nat>>)
    requires ValidColumns(cols)
    ensures RowsAfter(cols, 0) == Singles(cols[0])
  {
    var a, b := RowsAfter(cols, 0), Singles(cols[0]);
    forall r | 0 <= r < |a| ensures a[r] == b[r] {
      assert RowUpTo(cols, 0, r) == [cols[0][r]];
    }
  }

  lemma StuckNext(cols: seq<seq<nat>>, ch: Chain, i: nat)
    requires ValidColumns(cols) && Inv(cols, ch) && Stuck(cols, ch) && i + 1 < |cols|
    requires AtStage(cols, ch, i)
    ensures AtStage(cols, ch, i + 1)
  {
    MergedRows(RowsAfter(cols, i), cols[i + 1]);
    StuckUnit(cols, ch, i);
    RowsAfterNext(cols, i);
  }

  lemma FilterDone(cols: seq<seq<nat>>, ch: Chain)
    requires Inv(cols, ch) && Stuck(cols, ch)
    ensures ch.out == Dedup(Data(InputOf(cols, ch, |cols| - 1)))
  {
    FilterCaughtUp(cols, ch);
    var seen := Data(ch.log[|ch.log| - 1]);
    assert seen[..|seen|] == seen;
  }

  lemma FilterCaughtUp(cols: seq<seq<nat>>, ch: Chain)
    requires Shaped(cols, ch) && Stuck(cols, ch) && ch.filtered <= |ch.log[|ch.log| - 1]|
    ensures ch.filtered == |ch.log[|ch.log| - 1]|
  {
    assert FilterStep(cols, ch, true).filtered == ch.filtered;
  }

  ghost predicate AtStage(cols: seq<seq<nat>>, ch: Chain, i: nat)
    requires ValidColumns(cols) && Shaped(cols, ch) && i < |cols|
  {
    InputOf(cols, ch, i) == Stream(RowsAfter(cols, i))
  }

  lemma AtFirst(cols: seq<seq<nat>>, ch: Chain)
    requires ValidColumns(cols) && Shaped(cols, ch)
    ensures AtStage(cols, ch, 0)
  {
    FirstRows(cols);
  }

  lemma {:induction false} StuckChain(cols: seq<seq<nat>>, ch: Chain, i: nat)
    requires ValidColumns(cols) && Inv(cols, ch) && Stuck(cols, ch) && i < |cols|
    ensures AtStage(cols, ch, i)
  {
    hide AtStage, Stuck, UnitOk, FilterOk, ValidColumns;
    if i == 0 {
      AtFirst(cols, ch);
    } else {
      StuckChain(cols, ch, i - 1);
      StuckNext(cols, ch, i - 1);
    }
  }

  /** All rows of the input, whole. */
  function WholeRows(cols: seq<seq<nat>>): (rows: seq<seq<nat>>)
    requires ValidColumns(cols)
    ensures |rows| == |cols[0]| && forall r :: 0 <= r < |rows| ==> rows[r] == RowUpTo(cols, |cols| - 1, r)
  {
    seq(|cols[0]|, r requires 0 <= r < |cols[0]| => RowUpTo(cols, |cols| - 1, r))
  }

  lemma {:induction false} DedupRows(rows: seq<seq<nat>>, short: seq<seq<nat>>)
    requires |rows| == |short| && forall r :: 0 <= r < |rows| ==> short[r] == Dedup(rows[r])
    ensures Dedup(Concat(short)) == Dedup(Concat(rows))
  {
    if rows != [] {
      var n := |rows| - 1;
      DedupRows(rows[..n], short[..n]);
      DedupPieces(Concat(short[..n]), rows[n]);
      DedupFront(Concat(short[..n]), Concat(rows[..n]), rows[n]);
    }
  }

  lemma OneMore(s: seq<nat>, u: seq<nat>)
    requires u != []
    ensures s + u == (s + u[..|u| - 1]) + [u[|u| - 1]]
  {
  }

  lemma {:induction false} DedupFront(s: seq<nat>, t: seq<nat>, u: seq<nat>)
    requires Dedup(s) == Dedup(t)
    ensures Dedup(s + u) == Dedup(t + u)
  {
    if u == [] {
      assert s + u == s && t + u == t;
    } else {
      DedupFront(s, t, u[..|u| - 1]);
      DedupSnocs(s + u[..|u| - 1], t + u[..|u| - 1], u[|u| - 1]);
      OneMore(s, u);
      OneMore(t, u);
    }
  }

  lemma DedupSnocs(s: seq<nat>, t: seq<nat>, x: nat)
    requires Dedup(s) == Dedup(t)
    ensures Dedup(s + [x]) == Dedup(t + [x])
  {
    hide Dedup;
    DedupSnoc(s, x);
    DedupSnoc(t, x);
  }

  /** For every timing of every stage, when nothing can move any more the coalescer has put
      out exactly the flattened input without adjacent repeats. */
  lemma CoalescerOutput(cols: seq<seq<nat>>, run: seq<Chain>)
    requires ValidColumns(cols) && IsRun(cols, run)
    requires Shaped(cols, run[|run| - 1]) && Stuck(cols, run[|run| - 1])
    ensures run[|run| - 1].out == Dedup(Concat(WholeRows(cols)))
  {
    RunKeepsInv(cols, run, |run| - 1);
    StuckChain(cols, run[|run| - 1], |cols| - 1);
    StuckOutput(cols, run[|run| - 1]);
    ShortRows(cols);
  }

  // ----- before the end -----

  lemma {:induction false} MergedGrows(s: seq<Item>, m: nat, n: nat, col: seq<nat>)
    requires m <= n <= |s|
    ensures Merged(s, m, col) <= Merged(s, n, col)
  {
    if m < n { MergedGrows(s, m, n - 1, col); }
  }

  /** What a stage has written so far begins what it will have written in the end. */
  lemma StageBegins(st: Stage, in1: seq<Item>, full: seq<Item>, taken1: nat, col: seq<nat>, taken2: nat, out: seq<Item>)
    requires StageOk(st, in1, taken1, col, taken2, out) && in1 <= full
    ensures out <= Merged(full, |full|, col)
  {
    var n := Done(st, taken1);
    MergedStable(in1, full, n, col);
    MergedGrows(full, n, |full|, col);
  }

  ghost predicate Begins(cols: seq<seq<nat>>, ch: Chain, i: nat)
    requires ValidColumns(cols) && Shaped(cols, ch) && i < |cols|
  {
    InputOf(cols, ch, i) <= Stream(RowsAfter(cols, i))
  }

  lemma FirstBegins(cols: seq<seq<nat>>, ch: Chain)
    requires ValidColumns(cols) && Inv(cols, ch)
    ensures Begins(cols, ch, 0)
  {
    FirstRows(cols);
  }

  lemma NextBegins(cols: seq<seq<nat>>, ch: Chain, i: nat)
    requires ValidColumns(cols) && Shaped(cols, ch) && i < |ch.unit| && UnitOk(cols, ch, i) && Begins(cols, ch, i)
    ensures Begins(cols, ch, i + 1)
  {
    hide StageOk;
    var u := ch.unit[i];
    StageBegins(u.stage, InputOf(cols, ch, i), Stream(RowsAfter(cols, i)), u.taken1, cols[i + 1], u.taken2, ch.log[i]);
    MergedRows(RowsAfter(cols, i), cols[i + 1]);
    RowsAfterNext(cols, i);
  }

  lemma UnitIsOk(cols: seq<seq<nat>>, ch: Chain, i: nat)
    requires ValidColumns(cols) && Inv(cols, ch) && i < |cols| - 1
    ensures Shaped(cols, ch) && UnitOk(cols, ch, i)
  {
  }

  lemma {:induction false} LogBegins(cols: seq<seq<nat>>, ch: Chain, i: nat)
    requires ValidColumns(cols) && Inv(cols, ch) && i < |cols|
    ensures Begins(cols, ch, i)
  {
    hide *;
    if i == 0 {
      FirstBegins(cols, ch);
    } else {
      UnitIsOk(cols, ch, i - 1);
      LogBegins(cols, ch, i - 1);
      NextBegins(cols, ch, i - 1);
    }
  }

  lemma {:induction false} DedupBegins(s: seq<nat>, n: nat)
    requires n <= |s|
    ensures Dedup(s[..n]) <= Dedup(s)
  {
    if n == |s| {
      assert s[..n] == s;
    } else {
      var front := s[..|s| - 1];
      DedupBegins(front, n);
      assert front[..n] == s[..n] && s == front + [s[|s| - 1]];
      DedupSnoc(front, s[|s| - 1]);
    }
  }

  lemma FilterBegins(cols: seq<seq<nat>>, ch: Chain)
    requires ValidColumns(cols) && Shaped(cols, ch) && FilterOk(cols, ch) && Begins(cols, ch, |cols| - 1)
    ensures ch.out <= Dedup(Data(Stream(RowsAfter(cols, |cols| - 1))))
  {
    var seen, full := Data(ch.log[|ch.log| - 1]), Data(Stream(RowsAfter(cols, |cols| - 1)));
    assert seen[..ch.filtered] == full[..ch.filtered];
    DedupBegins(full, ch.filtered);
  }

  /** At every moment of every run the output is the beginning of the final one. */
  lemma OutputBegins(cols: seq<seq<nat>>, run: seq<Chain>, t: nat)
    requires ValidColumns(cols) && IsRun(cols, run) && t < |run|
    ensures run[t].out <= Dedup(Concat(WholeRows(cols)))
  {
    hide Begins, FilterOk, UnitOk, IsRun;
    RunKeepsInv(cols, run, t);
    LogBegins(cols, run[t], |cols| - 1);
    FilterBegins(cols, run[t]);
    StreamData(RowsAfter(cols, |cols| - 1));
    ShortRows(cols);
  }

  /** What the filter and the first i stages have read and written. */
  ghost function Work(ch: Chain, i: nat): nat
    requires i <= |ch.unit| == |ch.log|
  {
    if i == 0 then ch.filtered
    else Work(ch, i - 1) + ch.unit[i - 1].taken1 + ch.unit[i - 1].taken2 + |ch.log[i - 1]|
  }

  lemma {:induction false} WorkOfOthers(ch: Chain, ch': Chain, i: nat)
    requires i <= |ch.unit| == |ch.log| && |ch'.unit| == |ch'.log| == |ch.unit| && ch.filtered == ch'.filtered
    requires forall j :: 0 <= j < i ==> ch'.unit[j] == ch.unit[j] && ch'.log[j] == ch.log[j]
    ensures Work(ch', i) == Work(ch, i)
  {
    if i > 0 { WorkOfOthers(ch, ch', i - 1); }
  }

  lemma QuietStage(cols: seq<seq<nat>>, ch: Chain, i: nat, v1: bool, v2: bool)
    requires Shaped(cols, ch) && i < |ch.unit|
    requires var u := ch.unit[i];
             var e := Iteration(u.stage, Next(InputOf(cols, ch, i), u.taken1, v1), Next(cols[i + 1], u.taken2, v2));
             !e.read1 && !e.read2 && e.out == []
    ensures StageStep(cols, ch, i, v1, v2) == ch
  {
    var u := ch.unit[i];
    assert ch.log[i] + [] == ch.log[i];
    assert ch.unit[i := u] == ch.unit && ch.log[i := ch.log[i]] == ch.log;
  }

  /** A pass that changes anything reads or writes something. */
  lemma {:induction false} StageWorks(cols: seq<seq<nat>>, ch: Chain, i: nat, v1: bool, v2: bool, m: nat)
    requires Shaped(cols, ch) && i < m <= |ch.unit| && StageStep(cols, ch, i, v1, v2) != ch
    ensures Work(StageStep(cols, ch, i, v1, v2), m) > Work(ch, m)
  {
    var ch' := StageStep(cols, ch, i, v1, v2);
    if i < m - 1 {
      StageWorks(cols, ch, i, v1, v2, m - 1);
    } else {
      WorkOfOthers(ch, ch', i);
      var u := ch.unit[i];
      var e := Iteration(u.stage, Next(InputOf(cols, ch, i), u.taken1, v1), Next(cols[i + 1], u.taken2, v2));
      if !e.read1 && !e.read2 && e.out == [] { QuietStage(cols, ch, i, v1, v2); }
    }
  }

  lemma {:induction false} FilterWorks(cols: seq<seq<nat>>, ch: Chain, v: bool, m: nat)
    requires Shaped(cols, ch) && m <= |ch.unit| && FilterStep(cols, ch, v) != ch
    ensures Work(FilterStep(cols, ch, v), m) > Work(ch, m)
  {
    if m > 0 {
      FilterWorks(cols, ch, v, m - 1);
    } else if !FilterIteration(ch.last, Next(ch.log[|ch.log| - 1], ch.filtered, v)).read {
      assert ch.out + [] == ch.out;
    }
  }

  lemma StepWorks(cols: seq<seq<nat>>, ch: Chain, ch': Chain)
    requires Steps(cols, ch, ch') && ch' != ch
    ensures |ch'.unit| == |ch'.log| == |ch.unit| == |ch.log| && Work(ch', |ch.unit|) > Work(ch, |ch.unit|)
  {
    if v :| ch' == FilterStep(cols, ch, v) {
      FilterWorks(cols, ch, v, |ch.unit|);
    } else {
      var i: nat, v1, v2 :| i < |ch.unit| && ch' == StageStep(cols, ch, i, v1, v2);
      StageWorks(cols, ch, i, v1, v2, |ch.unit|);
    }
  }

  /** Every step of the run changes something. */
  ghost predicate Moving(run: seq<Chain>) {
    forall t :: 0 <= t < |run| - 1 ==> run[t + 1] != run[t]
  }

  lemma {:induction false} RunWorks(cols: seq<seq<nat>>, run: seq<Chain>, t: nat)
    requires ValidColumns(cols) && IsRun(cols, run) && Moving(run) && t < |run|
    ensures Shaped(cols, run[t]) && Work(run[t], |cols| - 1) >= t
  {
    RunKeepsInv(cols, run, t);
    if t > 0 {
      RunWorks(cols, run, t - 1);
      assert Steps(cols, run[t - 1], run[t - 1 + 1]) && run[t - 1 + 1] != run[t - 1];
      StepWorks(cols, run[t - 1], run[t]);
    }
  }

  lemma {:induction false} StreamLength(rows: seq<seq<nat>>, m: nat)
    requires forall r :: 0 <= r < |rows| ==> |rows[r]| <= m
    ensures |Stream(rows)| <= |rows| * m
  {
    if rows != [] {
      StreamLength(rows[..|rows| - 1], m);
      assert |rows| * m == (|rows| - 1) * m + m;
    }
  }

  lemma {:induction false} DedupLength(s: seq<nat>)
    ensures |Dedup(s)| <= |s|
  {
    if |s| > 1 { DedupLength(s[..|s| - 1]); }
  }

  /** After column c a row has at most c + 1 items. */
  lemma RowsLength(cols: seq<seq<nat>>, c: nat)
    requires ValidColumns(cols) && c < |cols|
    ensures |Stream(RowsAfter(cols, c))| <= |cols[0]| * (c + 1)
  {
    forall r | 0 <= r < |cols[0]| ensures |RowsAfter(cols, c)[r]| <= c + 1 { DedupLength(RowUpTo(cols, c, r)); }
    StreamLength(RowsAfter(cols, c), c + 1);
  }

  /** Moves that the filter and the first i stages can make, for one row. */
  function Moves(n: nat, i: nat): nat {
    if i == 0 then n else Moves(n, i - 1) + 2 * i + 2
  }

  /** How long the input of stage i can have become. */
  lemma InputLength(cols: seq<seq<nat>>, ch: Chain, i: nat)
    requires ValidColumns(cols) && Inv(cols, ch) && i < |cols|
    ensures |InputOf(cols, ch, i)| <= |cols[0]| * (i + 1)
  {
    hide Inv;
    LogBegins(cols, ch, i);
    RowsLength(cols, i);
  }

  lemma UnitWork(cols: seq<seq<nat>>, ch: Chain, i: nat)
    requires ValidColumns(cols) && Inv(cols, ch) && i < |ch.unit|
    ensures ch.unit[i].taken1 <= |InputOf(cols, ch, i)| && ch.unit[i].taken2 <= |cols[0]|
    ensures ch.log[i] == InputOf(cols, ch, i + 1)
  {
    assert UnitOk(cols, ch, i);
  }

  lemma {:induction false} WorkBound(cols: seq<seq<nat>>, ch: Chain, i: nat)
    requires ValidColumns(cols) && Inv(cols, ch) && i <= |ch.unit|
    ensures Work(ch, i) <= |cols[0]| * Moves(|cols|, i)
  {
    hide UnitOk;
    if i == 0 {
      InputLength(cols, ch, |cols| - 1);
    } else {
      WorkBound(cols, ch, i - 1);
      UnitWork(cols, ch, i - 1);
      InputLength(cols, ch, i - 1);
      InputLength(cols, ch, i);
      AddUp(|cols[0]|, Moves(|cols|, i - 1), i);
    }
  }

  lemma AddUp(rows: nat, m: nat, i: nat)
    ensures rows * (m + 2 * i + 2) == rows * m + rows * i + rows + rows * (i + 1)
  {
  }

  lemma NotStuckMoves(cols: seq<seq<nat>>, ch: Chain)
    requires Shaped(cols, ch) && !Stuck(cols, ch)
    ensures exists ch' :: Steps(cols, ch, ch') && ch' != ch
  {
    if FilterStep(cols, ch, true) != ch {
      assert Steps(cols, ch, FilterStep(cols, ch, true));
    } else if i: nat :| i < |ch.unit| && StageStep(cols, ch, i, true, true) != ch {
      assert Steps(cols, ch, StageStep(cols, ch, i, true, true));
    } else {
      var i: nat :| i < |ch.unit| && StageStep(cols, ch, i, false, false) != ch;
      assert Steps(cols, ch, StageStep(cols, ch, i, false, false));
    }
  }

  /** Every run comes to rest: it makes no more moves than a number per row that the number
      of columns gives (286 for sixteen), and while it is not at rest it can move. */
  lemma CoalescerEnds(cols: seq<seq<nat>>, run: seq<Chain>)
    requires ValidColumns(cols) && IsRun(cols, run) && Moving(run)
    ensures |run| - 1 <= |cols[0]| * Moves(|cols|, |cols| - 1)
    ensures var ch := run[|run| - 1];
            Shaped(cols, ch) && (!Stuck(cols, ch) ==> exists ch' :: Steps(cols, ch, ch') && ch' != ch)
  {
    hide Stuck, UnitOk, FilterOk, Moving;
    var t := |run| - 1;
    RunKeepsInv(cols, run, t);
    RunWorks(cols, run, t);
    WorkBound(cols, run[t], |cols| - 1);
    if !Stuck(cols, run[t]) { NotStuckMoves(cols, run[t]); }
  }

  lemma StuckOutput(cols: seq<seq<nat>>, ch: Chain)
    requires ValidColumns(cols) && Inv(cols, ch) && Stuck(cols, ch)
    requires InputOf(cols, ch, |cols| - 1) == Stream(RowsAfter(cols, |cols| - 1))
    ensures ch.out == Dedup(Concat(RowsAfter(cols, |cols| - 1)))
  {
    var rows := RowsAfter(cols, |cols| - 1);
    var s := InputOf(cols, ch, |cols| - 1);
    FilterDone(cols, ch);
    OutputOfRows(ch.out, s, rows);
  }

  lemma OutputOfRows(out: seq<nat>, s: seq<Item>, rows: seq<seq<nat>>)
    requires out == Dedup(Data(s)) && s == Stream(rows)
    ensures out == Dedup(Concat(rows))
  {
    StreamData(rows);
  }

  lemma ShortRows(cols: seq<seq<nat>>)
    requires ValidColumns(cols)
    ensures Dedup(Concat(RowsAfter(cols, |cols| - 1))) == Dedup(Concat(WholeRows(cols)))
  {
    DedupRows(WholeRows(cols), RowsAfter(cols, |cols| - 1));
  }
}
