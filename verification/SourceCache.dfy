/** One pass of a cache element over a run's lookups and lines: for which inputs is every
    answer the memory word, whatever the timing? */
module SourceCache {
  import opened CachePe

  datatype Pass = Pass(pe: Pe, prop: seq<nat>, taken: nat, lines: nat, out: seq<Answer>)

  /** Which of the two streams has something to offer in a pass of the loop. */
  datatype Offer = Offer(lookup: bool, line: bool)

  function RowOf(addr: nat): (r: nat)
    ensures r < DEPTH
  {
    (addr % 65536) / 16
  }

  ghost predicate Sorted(ids: seq<nat>) {
    forall q, r :: 0 <= q <= r < |ids| ==> ids[q] <= ids[r]
  }

  ghost predicate Increasing(lines: seq<Line>) {
    forall j, k :: 0 <= j < k < |lines| ==> lines[j].addr < lines[k].addr
  }

  ghost predicate WellFormed(lines: seq<Line>) {
    forall j :: 0 <= j < |lines| ==>
      lines[j].addr % 16 == 0 && |lines[j].data| == 16 && (lines[j].last <==> j == |lines| - 1)
  }

  ghost predicate HoldsWords(mem: nat -> nat, l: Line) {
    |l.data| == 16 && forall i :: 0 <= i < 16 ==> l.data[i] == mem(l.addr + i)
  }

  /** Line `j` is the row of lookup `q`. */
  ghost predicate Serves(ids: seq<nat>, lines: seq<Line>, q: nat, j: nat) {
    q < |ids| && j < |lines| && lines[j].addr == RowBase(ids[q])
  }

  ghost predicate Covered(ids: seq<nat>, lines: seq<Line>, q: nat) {
    exists j: nat :: Serves(ids, lines, q, j)
  }

  /** What the rest of the pipeline delivers: sorted lookups, lines in increasing order, and
      for every lookup its line. */
  ghost predicate Inputs(mem: nat -> nat, ids: seq<nat>, lines: seq<Line>) {
    && ids != [] && lines != []
    && Sorted(ids) && Increasing(lines) && WellFormed(lines)
    && (forall q: nat :: q < |ids| ==> Covered(ids, lines, q))
    && (forall q: nat, j: nat :: Serves(ids, lines, q, j) ==> HoldsWords(mem, lines[j]))
  }

  /** The lower bound the refill guard has to go by before lookup `q` is taken. */
  ghost function Bound(ids: seq<nat>, q: nat): nat
    requires q <= |ids|
  {
    if q == 0 then 0 else RowBase(ids[q - 1])
  }

  /** Line `k` shares its row with the line of lookup `q`, comes after it, and may be loaded
      before `q` is taken: the guard looks at the line before `k`, not at `k`. */
  ghost predicate Hazard(ids: seq<nat>, lines: seq<Line>, q: nat, k: nat) {
    && q < |ids| && 1 <= k < |lines|
    && RowBase(ids[q]) < lines[k].addr
    && RowOf(lines[k].addr) == RowOf(ids[q])
    && Bound(ids, q) + 65536 > lines[k - 1].addr + 16
  }

  ghost predicate Safe(ids: seq<nat>, lines: seq<Line>) {
    forall q: nat, k: nat :: !Hazard(ids, lines, q, k)
  }

  // ----- runs -----

  function Reset(sv: nat, tb: seq<nat>): Pe {
    Pe(sv, false, false, 0, 0, 0, false, 0, tb, false, false, false)
  }

  ghost function LookupAt(ids: seq<nat>, s: Pass, o: Offer): Option<Lookup> {
    if o.lookup && s.taken < |ids| then Some(Lookup(ids[s.taken], s.taken == |ids| - 1)) else None
  }

  ghost function LineAt(lines: seq<Line>, s: Pass, o: Offer): Option<Line> {
    if o.line && s.lines < |lines| then Some(lines[s.lines]) else None
  }

  ghost function Step(ids: seq<nat>, lines: seq<Line>, s: Pass, o: Offer): Pass
    requires |s.prop| == CACHE_SIZE && |s.pe.tb| == 16
  {
    var e := Iteration(s.pe, s.prop, LookupAt(ids, s, o), LineAt(lines, s, o));
    Pass(e.pe, e.prop,
         s.taken + (if e.svRead then 1 else 0),
         s.lines + (if e.lineRead then 1 else 0),
         s.out + (if e.answer.Some? then [e.answer.value] else []))
  }

  ghost predicate Sized(s: Pass) {
    |s.prop| == CACHE_SIZE && |s.pe.tb| == 16
  }

  lemma StepSized(ids: seq<nat>, lines: seq<Line>, s: Pass, o: Offer)
    requires Sized(s) && WellFormed(lines)
    ensures Sized(Step(ids, lines, s, o))
  {
  }

  ghost function After(ids: seq<nat>, lines: seq<Line>, s: Pass, offers: seq<Offer>): (t: Pass)
    requires Sized(s) && WellFormed(lines)
    ensures Sized(t)
  {
    if offers == [] then s
    else
      var t := After(ids, lines, s, offers[..|offers| - 1]);
      StepSized(ids, lines, t, offers[|offers| - 1]);
      Step(ids, lines, t, offers[|offers| - 1])
  }

  ghost predicate Starts(s: Pass) {
    Sized(s) && s.pe == Reset(s.pe.sv, s.pe.tb) && s.taken == 0 && s.lines == 0 && s.out == []
  }

  // ----- the invariant -----

  /** The window still holds `l`. */
  ghost predicate InWindow(prop: seq<nat>, l: Line)
    requires |prop| == CACHE_SIZE
  {
    |l.data| == 16 && forall i :: 0 <= i < 16 ==> prop[16 * RowOf(l.addr) + i] == l.data[i]
  }

  /** Of the first `m` lines, the window holds each that serves a lookup from `from` on. */
  ghost predicate Kept(ids: seq<nat>, lines: seq<Line>, prop: seq<nat>, from: nat, m: nat)
    requires |prop| == CACHE_SIZE && m <= |lines|
  {
    forall q: nat, j: nat :: from <= q && j < m && Serves(ids, lines, q, j) ==> InWindow(prop, lines[j])
  }

  ghost function Top(lines: seq<Line>, m: nat): nat
    requires m <= |lines|
  {
    if m == 0 then 0 else lines[m - 1].addr + 16
  }

  ghost predicate LookupsOk(ids: seq<nat>, s: Pass) {
    && s.taken <= |ids|
    && |s.out| == s.taken - (if s.pe.svReady then 1 else 0)
    && s.pe.required == Bound(ids, s.taken)
    && (s.taken > 0 ==> s.pe.sv == ids[s.taken - 1] && s.pe.frpFlag == (s.taken == |ids|))
    && s.pe.minIndex <= s.pe.required
    && (s.pe.endOfSv <==> |s.out| == |ids|)
  }

  /** With `read` lines read, the transfer buffer and the window hold what they should for
      the lookups from `from` on. */
  ghost predicate WindowOk(safe: bool, ids: seq<nat>, lines: seq<Line>, pe: Pe, prop: seq<nat>, read: nat, from: nat) {
    && |prop| == CACHE_SIZE && |pe.tb| == 16 && read <= |lines| && from <= |ids|
    && (pe.tbValid ==> read > 0 && pe.tbIndex == lines[read - 1].addr && pe.tb == lines[read - 1].data)
    && (safe ==> Kept(ids, lines, prop, from, InWindowCount(pe, read)))
  }

  /** Lines that have gone into the window. */
  function InWindowCount(pe: Pe, read: nat): (m: nat)
    requires pe.tbValid ==> read > 0
    ensures m <= read
  {
    if pe.tbValid then read - 1 else read
  }

  ghost predicate LinesOk(safe: bool, ids: seq<nat>, lines: seq<Line>, s: Pass) {
    && s.lines <= |lines|
    && (s.pe.endOfCa <==> s.lines == |lines|)
    && (!s.pe.endOfSv ==>
          && WindowOk(safe, ids, lines, s.pe, s.prop, s.lines, |s.out|)
          && BoundsOk(lines, s.pe, InWindowCount(s.pe, s.lines)))
  }

  /** The answers so far are the memory words at the lookups, in order, the last one marked. */
  ghost predicate Correct(mem: nat -> nat, ids: seq<nat>, out: seq<Answer>) {
    |out| <= |ids| && forall q :: 0 <= q < |out| ==> out[q] == Answer(mem(ids[q]), q == |ids| - 1)
  }

  /** What holds at the top of the loop; with `safe`, also that the window and the answers
      are right. */
  ghost predicate Inv(safe: bool, mem: nat -> nat, ids: seq<nat>, lines: seq<Line>, s: Pass) {
    && Sized(s) && LookupsOk(ids, s) && LinesOk(safe, ids, lines, s)
    && (safe ==> Correct(mem, ids, s.out))
  }

  lemma StartsInv(safe: bool, mem: nat -> nat, ids: seq<nat>, lines: seq<Line>, s: Pass)
    requires Inputs(mem, ids, lines) && Starts(s)
    ensures Inv(safe, mem, ids, lines, s)
  {
  }

  /** Rows and words of the window. */
  lemma WordOf(id: nat)
    ensures RowOf(RowBase(id)) == RowOf(id)
    ensures id % CACHE_SIZE == 16 * RowOf(id) + id % 16
    ensures RowBase(id) % 16 == 0 && RowBase(id) <= id < RowBase(id) + 16
  {
    OffsetOf(id);
    OffsetOf(RowBase(id));
    RowStart(id);
  }

  lemma OffsetOf(x: nat)
    ensures (x % 65536) % 16 == x % 16 && x % 65536 == 16 * RowOf(x) + x % 16
  {
    var e, y := x / 65536, x % 65536;
    assert x == 65536 * e + y && y == 16 * (y / 16) + y % 16;
    SixteenIn(4096 * e + y / 16, y % 16);
  }

  lemma SixteenIn(k: nat, o: nat)
    requires o < 16
    ensures (16 * k + o) % 16 == o
  {
  }

  /** The row's first word lies in the same row. */
  lemma RowStart(id: nat)
    ensures RowBase(id) % 16 == 0 && RowOf(RowBase(id)) == RowOf(id)
  {
    OffsetOf(id);
    var e, r := id / 65536, RowOf(id);
    assert RowBase(id) == 65536 * e + 16 * r;
    WindowIn(e, 16 * r);
    SixteenIn(4096 * e + r, 0);
  }

  lemma WindowIn(e: nat, y: nat)
    requires y < 65536
    ensures (65536 * e + y) % 65536 == y
  {
  }

  /** A hit finds the right word: the line of a sorted lookup below the window's top is
      loaded, and still there. */
  lemma HitIsRight(mem: nat -> nat, ids: seq<nat>, lines: seq<Line>, prop: seq<nat>, q: nat, m: nat)
    requires Inputs(mem, ids, lines) && |prop| == CACHE_SIZE && m <= |lines| && q < |ids|
    requires Kept(ids, lines, prop, q, m) && ids[q] < Top(lines, m)
    ensures prop[ids[q] % CACHE_SIZE] == mem(ids[q])
  {
    assert Covered(ids, lines, q);
    var j: nat :| Serves(ids, lines, q, j);
    WordOf(ids[q]);
    assert lines[m - 1].addr % 16 == 0;
    assert j < m;
    assert InWindow(prop, lines[j]) && HoldsWords(mem, lines[j]);
    assert prop[16 * RowOf(lines[j].addr) + ids[q] % 16] == lines[j].data[ids[q] % 16];
  }

  /** The lookup half of a pass. */
  lemma LookKeeps(safe: bool, mem: nat -> nat, ids: seq<nat>, lines: seq<Line>, s: Pass, lookup: Option<Lookup>)
    requires Inputs(mem, ids, lines) && Inv(safe, mem, ids, lines, s) && !s.pe.endOfSv
    requires lookup.Some? ==> s.taken < |ids| && lookup.value == Lookup(ids[s.taken], s.taken == |ids| - 1)
    ensures var (pe1, answer) := Look(s.pe, s.prop, lookup);
            var taken := s.taken + if !s.pe.svReady && lookup.Some? then 1 else 0;
            && pe1 == s.pe.(sv := pe1.sv, svReady := pe1.svReady, frpFlag := pe1.frpFlag, required := pe1.required)
            && taken <= |ids| && pe1.required == Bound(ids, taken) >= s.pe.required
            && (taken > 0 ==> pe1.sv == ids[taken - 1] && pe1.frpFlag == (taken == |ids|))
            && (answer.Some? ==> taken == |s.out| + 1 && answer.value.last == (|s.out| == |ids| - 1))
            && (answer.Some? && safe ==> answer.value.value == mem(ids[|s.out|]))
            && (answer.None? ==> |s.out| == taken - (if pe1.svReady then 1 else 0))
            && (answer.None? && pe1.svReady ==> ids[|s.out|] >= s.pe.maxIndex)
  {
    hide Kept, Correct, HoldsWords, Covered, Increasing;
    var (pe1, answer) := Look(s.pe, s.prop, lookup);
    if answer.Some? && safe {
      HitIsRight(mem, ids, lines, s.prop, |s.out|, InWindowCount(s.pe, s.lines));
    }
  }

  // ----- refilling -----

  /** Moving line `m` into the window keeps every line still needed, if no line needed and
      already loaded lives in the same row. */
  lemma StoreKeeps(ids: seq<nat>, lines: seq<Line>, prop: seq<nat>, from: nat, m: nat)
    requires |prop| == CACHE_SIZE && m < |lines| && WellFormed(lines) && Increasing(lines)
    requires Kept(ids, lines, prop, from, m)
    requires forall q: nat, j: nat :: from <= q && j < m && Serves(ids, lines, q, j) ==> RowOf(lines[j].addr) != RowOf(lines[m].addr)
    ensures Kept(ids, lines, StoreRow(prop, lines[m].addr, lines[m].data), from, m + 1)
  {
    var after := StoreRow(prop, lines[m].addr, lines[m].data);
    forall q: nat, j: nat | from <= q && j < m + 1 && Serves(ids, lines, q, j) ensures InWindow(after, lines[j]) {
      if j < m {
        assert InWindow(prop, lines[j]);
      }
    }
  }

  /** With no hazard, the guard lets a line in only when it displaces nothing needed. */
  lemma GuardProtects(ids: seq<nat>, lines: seq<Line>, from: nat, m: nat, q: nat, j: nat)
    requires Sorted(ids) && Increasing(lines) && WellFormed(lines) && Safe(ids, lines)
    requires m < |lines| && from <= q && j < m && Serves(ids, lines, q, j)
    requires (from < |ids| && ids[from] >= Top(lines, m)) || Bound(ids, from) + CACHE_SIZE > Top(lines, m)
    ensures RowOf(lines[j].addr) != RowOf(lines[m].addr)
  {
    WordOf(ids[q]);
    assert lines[j].addr < lines[m].addr;
    assert j <= m - 1 ==> lines[j].addr <= lines[m - 1].addr;
    assert lines[m - 1].addr % 16 == 0;
    assert from < |ids| ==> ids[q] >= ids[from];
    assert !Hazard(ids, lines, q, m);
    BoundMonotone(ids, from, q);
  }

  lemma BoundMonotone(ids: seq<nat>, p: nat, q: nat)
    requires Sorted(ids) && p <= q <= |ids|
    ensures Bound(ids, p) <= Bound(ids, q)
  {
    if 0 < p {
      assert ids[p - 1] <= ids[q - 1];
    }
  }

  /** If the guard is open, lookup `from` cannot be served yet or the bound allows the line. */
  ghost predicate GuardMeans(ids: seq<nat>, pe: Pe, from: nat) {
    pe.needUpdate ==>
      (from < |ids| && ids[from] >= pe.maxIndex) || (from <= |ids| && Bound(ids, from) + CACHE_SIZE > pe.maxIndex)
  }

  lemma LookWindow(safe: bool, mem: nat -> nat, ids: seq<nat>, lines: seq<Line>, s: Pass, lookup: Option<Lookup>)
    requires Inputs(mem, ids, lines) && Inv(safe, mem, ids, lines, s) && !s.pe.endOfSv
    requires lookup.Some? ==> s.taken < |ids| && lookup.value == Lookup(ids[s.taken], s.taken == |ids| - 1)
    ensures var (pe1, answer) := Look(s.pe, s.prop, lookup);
            var from := |s.out| + if answer.Some? then 1 else 0;
            && WindowOk(safe, ids, lines, pe1, s.prop, s.lines, from)
            && BoundsOk(lines, pe1, InWindowCount(pe1, s.lines)) && GuardMeans(ids, pe1, from)
            && !pe1.endOfSv && pe1.endOfCa == s.pe.endOfCa
            && (answer.Some? ==> (pe1.frpFlag <==> from == |ids|))
            && (from == |ids| ==> answer.Some?)
  {
    LookKeeps(safe, mem, ids, lines, s, lookup);
  }

  /** The line half of a pass, once the lookup half has left `pe1`. */
  lemma RefillKeeps(safe: bool, ids: seq<nat>, lines: seq<Line>, pe1: Pe, prop: seq<nat>, read: nat, from: nat, line: Option<Line>)
    requires Sorted(ids) && Increasing(lines) && WellFormed(lines) && (safe ==> Safe(ids, lines))
    requires WindowOk(safe, ids, lines, pe1, prop, read, from) && !pe1.endOfSv
    requires line.Some? ==> read < |lines| && line.value == lines[read]
    requires pe1.maxIndex == Top(lines, InWindowCount(pe1, read)) && GuardMeans(ids, pe1, from)
    ensures var (pe2, prop2, lineRead, updated) := Refill(pe1, prop, line);
            var read2 := read + if lineRead then 1 else 0;
            && WindowOk(safe, ids, lines, pe2, prop2, read2, from)
            && BoundsBefore(lines, pe1, pe2, updated, InWindowCount(pe2, read2))
            && pe2.endOfCa == (pe1.endOfCa || (lineRead && read2 == |lines|))
  {
    if pe1.tbValid && pe1.needUpdate && safe {
      var m := read - 1;
      forall q: nat, j: nat | from <= q && j < m && Serves(ids, lines, q, j) ensures RowOf(lines[j].addr) != RowOf(lines[m].addr) {
        GuardProtects(ids, lines, from, m, q, j);
      }
      StoreKeeps(ids, lines, prop, from, m);
    }
  }

  /** The bounds when `m` lines are in the window and they have not been moved yet. */
  ghost predicate BoundsBefore(lines: seq<Line>, pe1: Pe, pe2: Pe, updated: bool, m: nat) {
    && m <= |lines|
    && pe2.required == pe1.required && pe2.frpFlag == pe1.frpFlag && pe2.endOfSv == pe1.endOfSv
    && (if updated then m > 0 && pe2.tbIndex == lines[m - 1].addr && !pe2.needUpdate && pe2.maxIndex == Top(lines, m - 1)
        else pe2.maxIndex == Top(lines, m) && pe2.needUpdate == pe1.needUpdate)
  }

  /** Raising the top after line `m - 1` went in. */
  lemma TopAfter(lines: seq<Line>, m: nat)
    requires Increasing(lines) && WellFormed(lines) && 0 < m <= |lines|
    ensures RowBase(lines[m - 1].addr) == lines[m - 1].addr
    ensures Top(lines, m) == lines[m - 1].addr + 16 > Top(lines, m - 1)
  {
    assert lines[m - 1].addr % 16 == 0;
    assert m > 1 ==> lines[m - 2].addr % 16 == 0;
    assert m > 1 ==> lines[m - 2].addr < lines[m - 1].addr;
  }

  /** The bookkeeping half of a pass, with `m` lines now in the window. */
  lemma FinishKeeps(lines: seq<Line>, pe1: Pe, pe2: Pe, answered: bool, updated: bool, m: nat)
    requires Increasing(lines) && WellFormed(lines) && BoundsBefore(lines, pe1, pe2, updated, m)
    requires pe1.needUpdate ==> pe1.required + CACHE_SIZE > pe1.maxIndex
    requires !updated ==> pe1.maxIndex == pe2.maxIndex
    ensures var pe3 := Finish(pe2, answered, updated);
            && pe3.maxIndex == Top(lines, m)
            && (pe3.needUpdate <==> pe3.required + CACHE_SIZE > pe3.maxIndex)
            && pe3 == pe2.(endOfSv := pe3.endOfSv, svReady := pe3.svReady, maxIndex := pe3.maxIndex,
                           minIndex := pe3.minIndex, needUpdate := pe3.needUpdate)
            && (pe3.endOfSv <==> pe2.endOfSv || (answered && pe2.frpFlag))
  {
    if updated {
      TopAfter(lines, m);
    }
  }

  /** Once every lookup is answered, a pass only drains lines. */
  lemma DrainKeepsInv(safe: bool, mem: nat -> nat, ids: seq<nat>, lines: seq<Line>, s: Pass, o: Offer)
    requires Inputs(mem, ids, lines) && Inv(safe, mem, ids, lines, s) && s.pe.endOfSv
    ensures Inv(safe, mem, ids, lines, Step(ids, lines, s, o))
  {
    assert s.out + [] == s.out;
  }

  lemma StepLookups(safe: bool, mem: nat -> nat, ids: seq<nat>, lines: seq<Line>, s: Pass, o: Offer)
    requires Inputs(mem, ids, lines) && Inv(safe, mem, ids, lines, s) && !s.pe.endOfSv
    ensures LookupsOk(ids, Step(ids, lines, s, o)) && (safe ==> Correct(mem, ids, Step(ids, lines, s, o).out))
  {
    LookKeeps(safe, mem, ids, lines, s, LookupAt(ids, s, o));
    assert s.out + [] == s.out;
  }

  ghost predicate BoundsOk(lines: seq<Line>, pe: Pe, m: nat) {
    m <= |lines| && pe.maxIndex == Top(lines, m) && (pe.needUpdate ==> pe.required + CACHE_SIZE > pe.maxIndex)
  }

  /** Everything after the lookup half. */
  lemma LinesAfterLook(safe: bool, ids: seq<nat>, lines: seq<Line>, pe1: Pe, prop: seq<nat>, read: nat, from: nat, line: Option<Line>, answered: bool)
    requires Sorted(ids) && Increasing(lines) && WellFormed(lines) && (safe ==> Safe(ids, lines))
    requires WindowOk(safe, ids, lines, pe1, prop, read, from) && !pe1.endOfSv
    requires line.Some? ==> read < |lines| && line.value == lines[read]
    requires BoundsOk(lines, pe1, InWindowCount(pe1, read)) && GuardMeans(ids, pe1, from)
    ensures var (pe2, prop2, lineRead, updated) := Refill(pe1, prop, line);
            var read2 := read + if lineRead then 1 else 0;
            var pe3 := Finish(pe2, answered, updated);
            && WindowOk(safe, ids, lines, pe3, prop2, read2, from)
            && BoundsOk(lines, pe3, InWindowCount(pe3, read2))
            && pe3.endOfCa == (pe1.endOfCa || (lineRead && read2 == |lines|))
  {
    var (pe2, prop2, lineRead, updated) := Refill(pe1, prop, line);
    var read2 := read + if lineRead then 1 else 0;
    RefillKeeps(safe, ids, lines, pe1, prop, read, from, line);
    FinishKeeps(lines, pe1, pe2, answered, updated, InWindowCount(pe2, read2));
  }

  /** A step in terms of its three parts. */
  ghost predicate StepParts(s: Pass, t: Pass, pe1: Pe, answer: Option<Answer>, line: Option<Line>)
    requires Sized(s) && |pe1.tb| == 16
  {
    var (pe2, prop2, lineRead, updated) := Refill(pe1, s.prop, line);
    && t.pe == Finish(pe2, answer.Some?, updated) && t.prop == prop2
    && t.lines == s.lines + (if lineRead then 1 else 0)
    && |t.out| == |s.out| + (if answer.Some? then 1 else 0)
  }

  lemma StepIsParts(ids: seq<nat>, lines: seq<Line>, s: Pass, o: Offer)
    requires Sized(s)
    ensures var (pe1, answer) := Look(s.pe, s.prop, LookupAt(ids, s, o));
            |pe1.tb| == 16 && StepParts(s, Step(ids, lines, s, o), pe1, answer, LineAt(lines, s, o))
  {
  }

  lemma PartsKeepLines(safe: bool, ids: seq<nat>, lines: seq<Line>, s: Pass, t: Pass, pe1: Pe, answer: Option<Answer>, line: Option<Line>)
    requires Sorted(ids) && Increasing(lines) && WellFormed(lines) && (safe ==> Safe(ids, lines))
    requires var from := |s.out| + if answer.Some? then 1 else 0;
             && WindowOk(safe, ids, lines, pe1, s.prop, s.lines, from) && !pe1.endOfSv
             && BoundsOk(lines, pe1, InWindowCount(pe1, s.lines)) && GuardMeans(ids, pe1, from)
    requires line.Some? ==> s.lines < |lines| && line.value == lines[s.lines]
    requires pe1.endOfCa <==> s.lines == |lines|
    requires Sized(s) && StepParts(s, t, pe1, answer, line)
    ensures Sized(t) && LinesOk(safe, ids, lines, t)
  {
    LinesAfterLook(safe, ids, lines, pe1, s.prop, s.lines, |s.out| + if answer.Some? then 1 else 0, line, answer.Some?);
  }

  lemma StepLines(safe: bool, mem: nat -> nat, ids: seq<nat>, lines: seq<Line>, s: Pass, o: Offer)
    requires Inputs(mem, ids, lines) && (safe ==> Safe(ids, lines)) && Inv(safe, mem, ids, lines, s) && !s.pe.endOfSv
    ensures Sized(Step(ids, lines, s, o)) && LinesOk(safe, ids, lines, Step(ids, lines, s, o))
  {
    var (pe1, answer) := Look(s.pe, s.prop, LookupAt(ids, s, o));
    LookWindow(safe, mem, ids, lines, s, LookupAt(ids, s, o));
    StepIsParts(ids, lines, s, o);
    PartsKeepLines(safe, ids, lines, s, Step(ids, lines, s, o), pe1, answer, LineAt(lines, s, o));
  }

  /** Every pass of the loop keeps the invariant. */
  lemma StepKeepsInv(safe: bool, mem: nat -> nat, ids: seq<nat>, lines: seq<Line>, s: Pass, o: Offer)
    requires Inputs(mem, ids, lines) && (safe ==> Safe(ids, lines)) && Inv(safe, mem, ids, lines, s)
    ensures Inv(safe, mem, ids, lines, Step(ids, lines, s, o))
  {
    if s.pe.endOfSv {
      DrainKeepsInv(safe, mem, ids, lines, s, o);
    } else {
      StepLookups(safe, mem, ids, lines, s, o);
      StepLines(safe, mem, ids, lines, s, o);
    }
  }

  lemma {:induction false} RunKeepsInv(safe: bool, mem: nat -> nat, ids: seq<nat>, lines: seq<Line>, s: Pass, offers: seq<Offer>)
    requires Inputs(mem, ids, lines) && (safe ==> Safe(ids, lines)) && Starts(s)
    ensures Inv(safe, mem, ids, lines, After(ids, lines, s, offers))
  {
    if offers == [] {
      StartsInv(safe, mem, ids, lines, s);
    } else {
      RunKeepsInv(safe, mem, ids, lines, s, offers[..|offers| - 1]);
      StepKeepsInv(safe, mem, ids, lines, After(ids, lines, s, offers[..|offers| - 1]), offers[|offers| - 1]);
    }
  }

  /** Without a hazard every answer of every run is the memory word, whatever the timing. */
  lemma SafeRunsAreCorrect(mem: nat -> nat, ids: seq<nat>, lines: seq<Line>, s: Pass, offers: seq<Offer>)
    requires Inputs(mem, ids, lines) && Safe(ids, lines) && Starts(s)
    ensures Correct(mem, ids, After(ids, lines, s, offers).out)
  {
    RunKeepsInv(true, mem, ids, lines, s, offers);
  }

  /** Lines that follow one another without a gap are free of hazards. */
  lemma AdjacentLinesAreSafe(ids: seq<nat>, lines: seq<Line>)
    requires Sorted(ids) && WellFormed(lines)
    requires forall k :: 1 <= k < |lines| ==> lines[k].addr == lines[k - 1].addr + 16
    ensures Safe(ids, lines)
  {
    forall q: nat, k: nat ensures !Hazard(ids, lines, q, k) {
      if q < |ids| && 1 <= k < |lines| { NoHazardNext(ids, lines, q, k); }
    }
  }

  lemma NoHazardNext(ids: seq<nat>, lines: seq<Line>, q: nat, k: nat)
    requires Sorted(ids) && q < |ids| && 1 <= k < |lines|
    requires lines[k].addr % 16 == 0 && lines[k].addr == lines[k - 1].addr + 16
    ensures !Hazard(ids, lines, q, k)
  {
    BoundMonotone(ids, q, q + 1);
    if RowBase(ids[q]) < lines[k].addr && RowOf(lines[k].addr) == RowOf(ids[q]) {
      SameRowFar(ids[q], lines[k].addr);
    }
  }

  /** A later line in the row of an id is at least a whole window behind it. */
  lemma SameRowFar(id: nat, addr: nat)
    requires addr % 16 == 0 && RowOf(addr) == RowOf(id) && RowBase(id) < addr
    ensures addr >= RowBase(id) + 65536
  {
    RowPlace(id);
    RowPlace(addr);
    assert RowBase(addr) == addr;
    hide RowOf, RowBase;
    var d, e := addr / 65536, id / 65536;
    assert 65536 * d > 65536 * e;
  }

  lemma RowPlace(id: nat)
    ensures RowBase(id) == 65536 * (id / 65536) + 16 * RowOf(id)
  {
    WordOf(id);
  }

  // ----- progress -----

  ghost predicate Finished(s: Pass) {
    s.pe.endOfSv && s.pe.endOfCa
  }

  /** Once a line waits in the transfer buffer the guard register is up to date. */
  ghost predicate Fresh(s: Pass) {
    s.pe.tbValid ==> (s.pe.needUpdate <==> s.pe.required + CACHE_SIZE > s.pe.maxIndex) || s.pe.endOfSv
  }

  lemma StepFresh(safe: bool, mem: nat -> nat, ids: seq<nat>, lines: seq<Line>, s: Pass, o: Offer)
    requires Inputs(mem, ids, lines) && (safe ==> Safe(ids, lines)) && Inv(safe, mem, ids, lines, s) && Fresh(s)
    ensures Fresh(Step(ids, lines, s, o))
  {
    StepKeepsInv(safe, mem, ids, lines, s, o);
  }

  /** Lookups taken and answered, lines read and loaded. */
  ghost function Score(lines: seq<Line>, s: Pass): int {
    s.taken + |s.out| + s.lines + if s.pe.endOfSv then |lines| else s.lines - if s.pe.tbValid then 1 else 0
  }

  lemma ScoreBound(safe: bool, mem: nat -> nat, ids: seq<nat>, lines: seq<Line>, s: Pass)
    requires Inv(safe, mem, ids, lines, s)
    ensures Score(lines, s) <= 2 * |ids| + 2 * |lines|
    ensures Score(lines, s) == 2 * |ids| + 2 * |lines| ==> Finished(s)
    ensures Finished(s) ==> Score(lines, s) == 2 * |ids| + 2 * |lines|
  {
  }

  /** A lookup that cannot be answered yet leaves the refill guard open. */
  lemma WaitingLookupOpensGuard(safe: bool, mem: nat -> nat, ids: seq<nat>, lines: seq<Line>, s: Pass)
    requires Inputs(mem, ids, lines) && Inv(safe, mem, ids, lines, s) && Fresh(s)
    requires s.pe.svReady && !Hit(s.pe, s.pe.sv)
    ensures s.pe.tbValid ==> s.pe.needUpdate
    ensures !s.pe.tbValid ==> s.lines < |lines|
  {
    var q := s.taken - 1;
    WordOf(ids[q]);
    assert Covered(ids, lines, q);
    var j: nat :| Serves(ids, lines, q, j);
    var m := InWindowCount(s.pe, s.lines);
    assert m > 0 ==> lines[m - 1].addr % 16 == 0;
    assert j < m ==> lines[j].addr <= lines[m - 1].addr;
  }
}
