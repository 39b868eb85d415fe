/** When the cache never blocks, and exactly when it is right. */
module SourceCacheResults {
  import opened CachePe
  import opened SourceCache

  // ----- no deadlock -----

  const BOTH: Offer := Offer(true, true)
  const LOOKUP: Offer := Offer(true, false)
  const LINE: Offer := Offer(false, true)
  const NONE: Offer := Offer(false, false)

  /** Whether the element waits for a lookup rather than for a line. */
  ghost predicate WantsLookup(s: Pass) {
    !s.pe.svReady && !s.pe.endOfSv
  }

  /** A pass never loses ground, and gains some if the stream the element waits for has
      something to offer; without a gain it goes on waiting for the same stream. */
  lemma StepScores(mem: nat -> nat, ids: seq<nat>, lines: seq<Line>, s: Pass, o: Offer)
    requires Inputs(mem, ids, lines) && Inv(false, mem, ids, lines, s) && Fresh(s) && !Finished(s)
    ensures var t := Step(ids, lines, s, o);
            && Score(lines, s) <= Score(lines, t)
            && ((if WantsLookup(s) then o.lookup else o.line) ==> Score(lines, s) < Score(lines, t))
            && (Score(lines, s) == Score(lines, t) ==> WantsLookup(s) == WantsLookup(t))
  {
    if s.pe.svReady && !Hit(s.pe, s.pe.sv) {
      WaitingLookupOpensGuard(false, mem, ids, lines, s);
    }
    StepKeepsInv(false, mem, ids, lines, s, o);
  }

  /** Rounds completed so far, and what the current one has seen. */
  datatype Tally = Tally(rounds: nat, lookup: bool, line: bool)

  /** Cuts the passes into rounds, each ending as soon as both a lookup and a line have been
      offered in it, in whatever order and in different passes or the same. */
  function Rounds(offers: seq<Offer>): Tally {
    if offers == [] then Tally(0, false, false)
    else
      var t, o := Rounds(offers[..|offers| - 1]), offers[|offers| - 1];
      var lookup, line := t.lookup || o.lookup, t.line || o.line;
      if lookup && line then Tally(t.rounds + 1, false, false) else Tally(t.rounds, lookup, line)
  }

  /** One unit of progress per round; if the current round has made none, the element waits
      for the stream that has not offered in it. */
  ghost predicate KeepsUp(lines: seq<Line>, t: Pass, r: Tally) {
    || Finished(t) || Score(lines, t) > r.rounds
    || (Score(lines, t) == r.rounds && (r.lookup ==> !WantsLookup(t)) && (r.line ==> WantsLookup(t)))
  }

  lemma FinishedStays(mem: nat -> nat, ids: seq<nat>, lines: seq<Line>, s: Pass, o: Offer)
    requires Inputs(mem, ids, lines) && Inv(false, mem, ids, lines, s) && Finished(s)
    ensures Finished(Step(ids, lines, s, o))
  {
  }

  lemma {:induction false} RunScores(mem: nat -> nat, ids: seq<nat>, lines: seq<Line>, s: Pass, offers: seq<Offer>)
    requires Inputs(mem, ids, lines) && Starts(s)
    ensures var t := After(ids, lines, s, offers);
            Inv(false, mem, ids, lines, t) && Fresh(t) && KeepsUp(lines, t, Rounds(offers))
  {
    RunKeepsInv(false, mem, ids, lines, s, offers);
    if offers != [] {
      var front, o := offers[..|offers| - 1], offers[|offers| - 1];
      var t := After(ids, lines, s, front);
      RunScores(mem, ids, lines, s, front);
      StepFresh(false, mem, ids, lines, t, o);
      if Finished(t) { FinishedStays(mem, ids, lines, t, o); } else { StepScores(mem, ids, lines, t, o); }
    }
  }

  /** Lookups and refills never block each other: with Q lookups and L lines, any run of
      2Q + 2L rounds, in each of which both streams have offered at some time, has answered
      every lookup and read every line, hazard or not. */
  lemma EveryRunFinishes(mem: nat -> nat, ids: seq<nat>, lines: seq<Line>, s: Pass, offers: seq<Offer>)
    requires Inputs(mem, ids, lines) && Starts(s)
    requires Rounds(offers).rounds >= 2 * |ids| + 2 * |lines|
    ensures var t := After(ids, lines, s, offers);
            Finished(t) && |t.out| == |ids| && t.lines == |lines|
  {
    RunScores(mem, ids, lines, s, offers);
    ScoreBound(false, mem, ids, lines, After(ids, lines, s, offers));
  }

  // ----- a hazard makes some run wrong -----

  function Words(mem: nat -> nat, addr: nat): (d: seq<nat>)
    ensures |d| == 16 && forall i :: 0 <= i < 16 ==> d[i] == mem(addr + i)
  {
    seq(16, (i: nat) => mem(addr + i))
  }

  /** Lines read from memory at the given addresses. */
  function LinesOf(mem: nat -> nat, addrs: seq<nat>): (lines: seq<Line>)
    ensures |lines| == |addrs|
    ensures forall j :: 0 <= j < |lines| ==> lines[j] == Line(addrs[j], Words(mem, addrs[j]), j == |addrs| - 1)
    ensures (forall j :: 0 <= j < |addrs| ==> addrs[j] % 16 == 0) ==> WellFormed(lines)
  {
    seq(|addrs|, j requires 0 <= j < |addrs| => Line(addrs[j], Words(mem, addrs[j]), j == |addrs| - 1))
  }

  /** Sorted lookups and increasing row addresses that cover them. */
  ghost predicate Addresses(ids: seq<nat>, addrs: seq<nat>) {
    && ids != [] && addrs != [] && Sorted(ids)
    && (forall j :: 0 <= j < |addrs| ==> addrs[j] % 16 == 0)
    && (forall j, k :: 0 <= j < k < |addrs| ==> addrs[j] < addrs[k])
    && forall q :: 0 <= q < |ids| ==> RowBase(ids[q]) in addrs
  }

  lemma AddressesAreInputs(mem: nat -> nat, ids: seq<nat>, addrs: seq<nat>)
    requires Addresses(ids, addrs)
    ensures Inputs(mem, ids, LinesOf(mem, addrs))
  {
    var lines := LinesOf(mem, addrs);
    forall q: nat | q < |ids| ensures Covered(ids, lines, q) {
      var j :| 0 <= j < |addrs| && addrs[j] == RowBase(ids[q]);
      assert Serves(ids, lines, q, j);
    }
  }

  /** After lookup `q - 1` is answered and before `q` is taken, with the transfer buffer empty. */
  ghost predicate Between(ids: seq<nat>, lines: seq<Line>, t: Pass, q: nat) {
    && t.taken == q == |t.out| <= |ids| && !t.pe.tbValid && t.lines <= |lines| && |t.prop| == CACHE_SIZE
    && (t.lines > 0 ==> lines[t.lines - 1].addr <= Bound(ids, q))
    && (q == 0 ==> t.lines == 0)
  }

  /** States that some run from `s` reaches. */
  ghost predicate Reachable(ids: seq<nat>, lines: seq<Line>, s: Pass, t: Pass)
    requires Sized(s) && WellFormed(lines)
  {
    exists offers: seq<Offer> :: After(ids, lines, s, offers) == t
  }

  lemma ReachableStep(ids: seq<nat>, lines: seq<Line>, s: Pass, t: Pass, o: Offer)
    requires Sized(s) && WellFormed(lines) && Reachable(ids, lines, s, t)
    ensures Sized(t) && Reachable(ids, lines, s, Step(ids, lines, t, o))
  {
    var offers: seq<Offer> :| After(ids, lines, s, offers) == t;
    assert (offers + [o])[..|offers|] == offers;
    assert After(ids, lines, s, offers + [o]) == Step(ids, lines, t, o);
  }

  /** What a run's state owes, as far as building a run needs it. */
  ghost predicate Facts(ids: seq<nat>, lines: seq<Line>, t: Pass) {
    && Sized(t) && Fresh(t) && t.taken <= |ids| && t.lines <= |lines|
    && |t.out| == t.taken - (if t.pe.svReady then 1 else 0)
    && t.pe.required == Bound(ids, t.taken) && t.pe.minIndex <= t.pe.required
    && (t.taken > 0 ==> t.pe.sv == ids[t.taken - 1])
    && (t.pe.endOfSv <==> |t.out| == |ids|)
    && (!t.pe.endOfSv && t.pe.tbValid ==> t.lines > 0 && t.pe.tbIndex == lines[t.lines - 1].addr && t.pe.tb == lines[t.lines - 1].data)
    && (!t.pe.endOfSv ==> t.pe.maxIndex == Top(lines, if t.pe.tbValid then t.lines - 1 else t.lines))
  }

  lemma RunFacts(mem: nat -> nat, ids: seq<nat>, lines: seq<Line>, s: Pass, t: Pass)
    requires Inputs(mem, ids, lines) && Starts(s) && Reachable(ids, lines, s, t)
    ensures Facts(ids, lines, t)
  {
    var offers: seq<Offer> :| After(ids, lines, s, offers) == t;
    RunKeepsInv(false, mem, ids, lines, s, offers);
    RunScores(mem, ids, lines, s, offers);
  }

  /** The guard stays open, and no lookup is answered, until `n` lines are in the window. */
  ghost predicate CanLoad(lines: seq<Line>, t: Pass, n: nat)
    requires n <= |lines|
  {
    && !t.pe.tbValid && !t.pe.endOfSv && t.lines < n
    && t.pe.required + CACHE_SIZE > Top(lines, n - 1)
    && (t.pe.svReady ==> t.pe.sv >= Top(lines, n - 1))
  }

  ghost predicate LoadedTo(lines: seq<Line>, t: Pass, u: Pass, n: nat) {
    && u.lines == n && !u.pe.tbValid && !u.pe.endOfSv
    && u.taken == t.taken && u.out == t.out && u.pe.svReady == t.pe.svReady
    && u.pe.sv == t.pe.sv && u.pe.required == t.pe.required
    && Sized(u) && 0 < n <= |lines| && InWindow(u.prop, lines[n - 1])
  }

  /** Reading a line into the transfer buffer. */
  lemma ReadOne(mem: nat -> nat, ids: seq<nat>, lines: seq<Line>, s: Pass, t: Pass) returns (v: Pass)
    requires Inputs(mem, ids, lines) && Starts(s) && Reachable(ids, lines, s, t)
    requires t.lines < |lines| && CanLoad(lines, t, t.lines + 1)
    ensures Reachable(ids, lines, s, v) && Facts(ids, lines, v)
    ensures v.lines == t.lines + 1 && v.pe.tbValid && !v.pe.endOfSv
    ensures v.taken == t.taken && v.out == t.out && v.pe.svReady == t.pe.svReady
    ensures v.pe.sv == t.pe.sv && v.pe.required == t.pe.required
  {
    RunFacts(mem, ids, lines, s, t);
    ReachableStep(ids, lines, s, t, LINE);
    v := Step(ids, lines, t, LINE);
    RunFacts(mem, ids, lines, s, v);
    assert t.out + [] == t.out;
  }

  /** Moving it on into the window. */
  lemma LoadOne(mem: nat -> nat, ids: seq<nat>, lines: seq<Line>, s: Pass, t: Pass) returns (u: Pass)
    requires Inputs(mem, ids, lines) && Starts(s) && Reachable(ids, lines, s, t)
    requires t.lines < |lines| && CanLoad(lines, t, t.lines + 1)
    ensures Reachable(ids, lines, s, u) && LoadedTo(lines, t, u, t.lines + 1)
  {
    var v := ReadOne(mem, ids, lines, s, t);
    ReachableStep(ids, lines, s, v, NONE);
    u := Step(ids, lines, v, NONE);
    assert v.out + [] == v.out;
  }

  /** Loading lines until `n` of them are in the window. */
  lemma {:induction false} LoadTo(mem: nat -> nat, ids: seq<nat>, lines: seq<Line>, s: Pass, t: Pass, n: nat) returns (u: Pass)
    requires Inputs(mem, ids, lines) && Starts(s) && Reachable(ids, lines, s, t)
    requires n <= |lines| && CanLoad(lines, t, n)
    ensures Reachable(ids, lines, s, u) && LoadedTo(lines, t, u, n)
    decreases n
  {
    TopMonotone(lines, n - 1);
    if t.lines == n - 1 {
      u := LoadOne(mem, ids, lines, s, t);
    } else {
      var v := LoadTo(mem, ids, lines, s, t, n - 1);
      u := LoadOne(mem, ids, lines, s, v);
    }
  }

  lemma TopMonotone(lines: seq<Line>, n: nat)
    requires Increasing(lines) && n <= |lines|
    ensures n > 0 ==> Top(lines, n - 1) <= Top(lines, n)
  {
  }

  /** Lookups can be answered one by one, loading no line before a lookup needs it. */
  lemma {:induction false} ReachBetween(mem: nat -> nat, ids: seq<nat>, lines: seq<Line>, s: Pass, q: nat) returns (t: Pass)
    requires Inputs(mem, ids, lines) && Starts(s) && q <= |ids|
    ensures Reachable(ids, lines, s, t) && Between(ids, lines, t, q)
  {
    if q == 0 {
      t := s;
      assert After(ids, lines, s, []) == s;
    } else {
      t := ReachBetween(mem, ids, lines, s, q - 1);
      t := AnswerNext(mem, ids, lines, s, t, q - 1);
    }
  }

  lemma TakeStep(ids: seq<nat>, lines: seq<Line>, t: Pass, q: nat)
    requires Sized(t) && Between(ids, lines, t, q) && q < |ids| && !t.pe.svReady
    ensures var u := Step(ids, lines, t, LOOKUP);
            && u.taken == q + 1 && u.lines == t.lines && !u.pe.tbValid
            && (u.pe.svReady ==> !Hit(t.pe, ids[q])) && (!u.pe.svReady ==> |u.out| == q + 1)
  {
  }

  lemma TakeNext(mem: nat -> nat, ids: seq<nat>, lines: seq<Line>, s: Pass, t: Pass, q: nat) returns (u: Pass)
    requires Inputs(mem, ids, lines) && Starts(s) && q < |ids|
    requires Reachable(ids, lines, s, t) && Between(ids, lines, t, q)
    ensures Reachable(ids, lines, s, u) && Facts(ids, lines, u)
    ensures u.taken == q + 1 && u.lines == t.lines && !u.pe.tbValid
    ensures u.pe.svReady ==> ids[q] >= Top(lines, t.lines)
    ensures !u.pe.svReady ==> Between(ids, lines, u, q + 1)
  {
    RunFacts(mem, ids, lines, s, t);
    ReachableStep(ids, lines, s, t, LOOKUP);
    u := Step(ids, lines, t, LOOKUP);
    TakeStep(ids, lines, t, q);
    RunFacts(mem, ids, lines, s, u);
    BoundMonotone(ids, q, q + 1);
    WordOf(ids[q]);
  }

  lemma AnswerNext(mem: nat -> nat, ids: seq<nat>, lines: seq<Line>, s: Pass, t: Pass, q: nat) returns (u: Pass)
    requires Inputs(mem, ids, lines) && Starts(s) && q < |ids|
    requires Reachable(ids, lines, s, t) && Between(ids, lines, t, q)
    ensures Reachable(ids, lines, s, u) && Between(ids, lines, u, q + 1)
  {
    u := TakeNext(mem, ids, lines, s, t, q);
    if u.pe.svReady {
      u := AnswerPending(mem, ids, lines, s, u, q);
    }
  }

  lemma PendingCanLoad(ids: seq<nat>, lines: seq<Line>, u: Pass, q: nat, j: nat)
    requires Facts(ids, lines, u) && q < |ids| && u.taken == q + 1 && u.pe.svReady && !u.pe.tbValid
    requires u.lines <= j < |lines| && lines[j].addr == RowBase(ids[q]) && RowBase(ids[q]) >= Top(lines, j)
    ensures CanLoad(lines, u, j + 1)
  {
    WordOf(ids[q]);
  }

  lemma AnswerPending(mem: nat -> nat, ids: seq<nat>, lines: seq<Line>, s: Pass, t: Pass, q: nat) returns (u: Pass)
    requires Inputs(mem, ids, lines) && Starts(s) && q < |ids|
    requires Reachable(ids, lines, s, t) && Facts(ids, lines, t)
    requires t.taken == q + 1 && t.pe.svReady && !t.pe.tbValid && ids[q] >= Top(lines, t.lines)
    ensures Reachable(ids, lines, s, u) && Between(ids, lines, u, q + 1)
  {
    var j := LineOfLookup(mem, ids, lines, q, t.lines);
    PendingCanLoad(ids, lines, t, q, j);
    u := LoadTo(mem, ids, lines, s, t, j + 1);
    u := AnswerWaiting(mem, ids, lines, s, u, q);
  }

  lemma AnswerWaiting(mem: nat -> nat, ids: seq<nat>, lines: seq<Line>, s: Pass, t: Pass, q: nat) returns (u: Pass)
    requires Inputs(mem, ids, lines) && Starts(s) && q < |ids| && Reachable(ids, lines, s, t)
    requires t.taken == q + 1 && t.pe.svReady && !t.pe.tbValid && !t.pe.endOfSv && 0 < t.lines <= |lines|
    requires lines[t.lines - 1].addr == RowBase(ids[q])
    ensures Reachable(ids, lines, s, u) && Between(ids, lines, u, q + 1)
  {
    RunFacts(mem, ids, lines, s, t);
    WordOf(ids[q]);
    ReachableStep(ids, lines, s, t, NONE);
    u := Step(ids, lines, t, NONE);
  }

  /** The line a waiting lookup needs is still to come, and all before it are below the lookup. */
  lemma LineOfLookup(mem: nat -> nat, ids: seq<nat>, lines: seq<Line>, q: nat, m: nat) returns (j: nat)
    requires Inputs(mem, ids, lines) && q < |ids| && m <= |lines| && ids[q] >= Top(lines, m)
    ensures m <= j < |lines| && lines[j].addr == RowBase(ids[q])
    ensures RowBase(ids[q]) >= Top(lines, j)
  {
    hide HoldsWords, Increasing, WellFormed;
    assert Covered(ids, lines, q);
    j :| Serves(ids, lines, q, j);
    if j < m && j < m - 1 { Apart16(lines, j, m - 1); }
    if j > 0 { Apart16(lines, j - 1, j); }
  }

  /** Lines that follow each other are at least a row apart. */
  lemma Apart16(lines: seq<Line>, i: nat, j: nat)
    requires Increasing(lines) && WellFormed(lines) && i < j < |lines|
    ensures lines[i].addr + 16 <= lines[j].addr
  {
  }

  // ----- any source of lines -----

  /** The lines something delivers, whatever the memory holds. */
  type LineSource = (nat -> nat) -> seq<Line>

  ghost predicate SameAddresses(a: seq<Line>, b: seq<Line>) {
    |a| == |b| && forall j :: 0 <= j < |a| ==> a[j].addr == b[j].addr
  }

  /** Every line holds the words of its address, or nothing but zeros. */
  ghost predicate WordsOrZeros(mem: nat -> nat, lines: seq<Line>) {
    forall j :: 0 <= j < |lines| ==> HoldsWords(mem, lines[j]) || lines[j].data == seq(16, _ => 0)
  }

  /** The source serves the lookups, and its addresses do not depend on the memory. */
  ghost predicate Delivers(ids: seq<nat>, source: LineSource) {
    && (forall mem: nat -> nat :: Inputs(mem, ids, source(mem)) && WordsOrZeros(mem, source(mem)))
    && (forall mem: nat -> nat, mem': nat -> nat :: SameAddresses(source(mem), source(mem')))
  }

  const ZERO: nat -> nat := x => 0
  const NEXT: nat -> nat := x => x + 1

  /** With a hazard, some timing makes the cache answer lookup `q` with a word of line `k`. */
  lemma HazardMakesARunWrong(ids: seq<nat>, source: LineSource, s: Pass, q: nat, k: nat) returns (offers: seq<Offer>)
    requires Delivers(ids, source) && Starts(s) && Hazard(ids, source(NEXT), q, k)
    ensures WellFormed(source(NEXT))
    ensures var out := After(ids, source(NEXT), s, offers).out;
            |out| == q + 1 && out[q].value == source(NEXT)[k].data[ids[q] % 16] != NEXT(ids[q])
  {
    var lines := source(NEXT);
    assert Inputs(NEXT, ids, lines) && WordsOrZeros(NEXT, lines);
    var u := WrongAnswer(NEXT, ids, lines, s, q, k);
    offers :| After(ids, lines, s, offers) == u;
    WordOf(ids[q]);
  }

  lemma IndexBelow(lines: seq<Line>, i: nat, k: nat)
    requires Increasing(lines) && i < |lines| && k < |lines| && lines[i].addr < lines[k].addr
    ensures i < k
  {
  }

  lemma WrongAnswer(mem: nat -> nat, ids: seq<nat>, lines: seq<Line>, s: Pass, q: nat, k: nat) returns (u: Pass)
    requires Inputs(mem, ids, lines) && Starts(s) && Hazard(ids, lines, q, k)
    ensures Reachable(ids, lines, s, u)
    ensures |u.out| == q + 1 && u.out[q].value == lines[k].data[ids[q] % 16]
  {
    var t := ReachBetween(mem, ids, lines, s, q);
    RunFacts(mem, ids, lines, s, t);
    HazardCanLoad(ids, lines, t, q, k);
    u := LoadTo(mem, ids, lines, s, t, k + 1);
    WordOf(ids[q]);
    WindowWord(u.prop, lines[k], ids[q]);
    u := TakeLoaded(mem, ids, lines, s, u, q);
  }

  lemma WindowWord(prop: seq<nat>, l: Line, id: nat)
    requires |prop| == CACHE_SIZE && InWindow(prop, l) && RowOf(id) == RowOf(l.addr)
    ensures prop[id % CACHE_SIZE] == l.data[id % 16]
  {
    WordOf(id);
    assert prop[16 * RowOf(l.addr) + id % 16] == l.data[id % 16];
  }

  /** Before lookup `q` is taken, the guard lets the lines up to `k` in. */
  lemma HazardCanLoad(ids: seq<nat>, lines: seq<Line>, t: Pass, q: nat, k: nat)
    requires Sorted(ids) && Increasing(lines) && Hazard(ids, lines, q, k)
    requires Facts(ids, lines, t) && Between(ids, lines, t, q)
    ensures k + 1 <= |lines| && CanLoad(lines, t, k + 1) && !t.pe.svReady
  {
    BoundMonotone(ids, q, q + 1);
    if t.lines > 0 {
      IndexBelow(lines, t.lines - 1, k);
    }
  }

  lemma TakeLoaded(mem: nat -> nat, ids: seq<nat>, lines: seq<Line>, s: Pass, t: Pass, q: nat) returns (u: Pass)
    requires Inputs(mem, ids, lines) && Starts(s) && q < |ids| && Reachable(ids, lines, s, t)
    requires Sized(t) && t.lines <= |lines|
    requires t.taken == q == |t.out| && !t.pe.tbValid && !t.pe.svReady && ids[q] < Top(lines, t.lines)
    ensures Reachable(ids, lines, s, u)
    ensures u.out == t.out + [Answer(t.prop[ids[q] % CACHE_SIZE], q == |ids| - 1)]
  {
    RunFacts(mem, ids, lines, s, t);
    ReachableStep(ids, lines, s, t, LOOKUP);
    u := Step(ids, lines, t, LOOKUP);
    BoundMonotone(ids, q, q + 1);
    WordOf(ids[q]);
  }

  /** Every answer is right, for every memory, start and timing. */
  ghost predicate AlwaysCorrect(ids: seq<nat>, source: LineSource)
    requires Delivers(ids, source)
  {
    forall mem: nat -> nat, s: Pass, offers: seq<Offer> :: Starts(s) ==>
      Inputs(mem, ids, source(mem)) && Correct(mem, ids, After(ids, source(mem), s, offers).out)
  }

  lemma SafeDependsOnAddresses(ids: seq<nat>, a: seq<Line>, b: seq<Line>)
    requires SameAddresses(a, b) && Safe(ids, a)
    ensures Safe(ids, b)
  {
    forall q: nat, k: nat ensures !Hazard(ids, b, q, k) {
      assert !Hazard(ids, a, q, k);
    }
  }

  /** For whatever delivers the lines: the cache agrees with plain memory reads for every
      memory and every timing exactly when lookups and line addresses have no hazard. */
  lemma CorrectIffSafe(ids: seq<nat>, source: LineSource)
    requires Delivers(ids, source)
    ensures AlwaysCorrect(ids, source) <==> Safe(ids, source(ZERO))
  {
    if Safe(ids, source(ZERO)) {
      forall mem: nat -> nat, s: Pass, offers: seq<Offer> | Starts(s)
        ensures Inputs(mem, ids, source(mem)) && Correct(mem, ids, After(ids, source(mem), s, offers).out)
      {
        assert SameAddresses(source(ZERO), source(mem));
        SafeDependsOnAddresses(ids, source(ZERO), source(mem));
        SafeRunsAreCorrect(mem, ids, source(mem), s, offers);
      }
    } else {
      assert SameAddresses(source(NEXT), source(ZERO));
      if Safe(ids, source(NEXT)) { SafeDependsOnAddresses(ids, source(NEXT), source(ZERO)); }
      var q: nat, k: nat :| Hazard(ids, source(NEXT), q, k);
      var s := Pass(Reset(0, seq(16, _ => 0)), seq(CACHE_SIZE, _ => 0), 0, 0, []);
      var offers := HazardMakesARunWrong(ids, source, s, q, k);
      assert !Correct(NEXT, ids, After(ids, source(NEXT), s, offers).out);
    }
  }

  lemma AddressesDeliver(ids: seq<nat>, addrs: seq<nat>)
    requires Addresses(ids, addrs)
    ensures Delivers(ids, (mem: nat -> nat) => LinesOf(mem, addrs))
  {
    forall mem: nat -> nat ensures Inputs(mem, ids, LinesOf(mem, addrs)) && WordsOrZeros(mem, LinesOf(mem, addrs)) {
      AddressesAreInputs(mem, ids, addrs);
    }
  }

  /** The claim that sorted lookups and lines covering them suffice is false: lookups 0, 1 and
      65536 with a line for each row. */
  lemma GapBreaksTheCache()
    ensures var source: LineSource := mem => LinesOf(mem, [0, 65536]);
            Delivers([0, 1, 65536], source) && !AlwaysCorrect([0, 1, 65536], source)
  {
    var ids, addrs: seq<nat> := [0, 1, 65536], [0, 65536];
    var source: LineSource := mem => LinesOf(mem, addrs);
    assert addrs[0] == 0 && addrs[1] == 65536;
    AddressesDeliver(ids, addrs);
    assert Hazard(ids, source(ZERO), 1, 1);
    CorrectIffSafe(ids, source);
  }
}
