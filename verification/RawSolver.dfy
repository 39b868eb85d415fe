/**
 * The alternative hazard solver (`rawSolver`): four slots merge updates for the
 * same vertex and release one only when it is at least 32 away from the last
 * vertex sent, so that two updates in a row never touch the same buffer word.
 */
module RawSolver {
  import opened DstProperty

  const SLOTS := 4
  const DST_INTERVAL := 32

  // Tokens that end the stream: the flag, or the two reserved vertex numbers.
  predicate Ends<V>(t: Token<V>) {
    t.last || t.data.dst == -1 || t.data.dst == -2
  }

  // The number of tokens before the first that ends the stream.
  function Running<V>(input: seq<Token<V>>): (n: nat)
    ensures n <= |input|
    ensures forall k :: 0 <= k < n ==> !Ends(input[k])
    ensures n < |input| ==> Ends(input[n])
  {
    if input == [] || Ends(input[0]) then 0 else
      var n := Running(input[1..]);
      assert forall k :: 0 < k <= n ==> input[k] == input[1..][k - 1];
      n + 1
  }

  // ---------------------------------------------------------------------
  // Totals per vertex.
  // ---------------------------------------------------------------------

  function Total<V>(us: seq<Update<V>>, n: nat, dst: int, gather: (V, V) -> V, zero: V): V
    requires n <= |us|
  {
    if n == 0 then zero
    else
      var r := Total(us, n - 1, dst, gather, zero);
      if us[n - 1].dst == dst then gather(r, us[n - 1].value) else r
  }

  lemma {:induction false} TotalPrefix<V>(us: seq<Update<V>>, more: seq<Update<V>>, n: nat, dst: int, gather: (V, V) -> V, zero: V)
    requires n <= |us|
    ensures Total(us + more, n, dst, gather, zero) == Total(us, n, dst, gather, zero)
  {
    if n > 0 { TotalPrefix(us, more, n - 1, dst, gather, zero); }
  }

  lemma TotalSnoc<V>(us: seq<Update<V>>, u: Update<V>, dst: int, gather: (V, V) -> V, zero: V)
    ensures Total(us + [u], |us| + 1, dst, gather, zero) ==
            var r := Total(us, |us|, dst, gather, zero); if u.dst == dst then gather(r, u.value) else r
  {
    TotalPrefix(us, [u], |us|, dst, gather, zero);
  }

  // Associative with zero on the right: all the solver needs, since it never
  // reorders the updates of one vertex.
  ghost predicate Monoid<V(!new)>(gather: (V, V) -> V, zero: V) {
    && (forall a, b, c {:trigger gather(gather(a, b), c)} :: gather(gather(a, b), c) == gather(a, gather(b, c)))
    && (forall a :: gather(a, zero) == a)
  }

  // ---------------------------------------------------------------------
  // The slots.
  // ---------------------------------------------------------------------

  // What the first n slots hold for a vertex.
  function Held<V>(buf: seq<Update<V>>, valid: seq<bool>, n: nat, dst: int, zero: V): V
    requires n <= |valid| <= |buf|
  {
    if n == 0 then zero
    else if valid[n - 1] && buf[n - 1].dst == dst then buf[n - 1].value
    else Held(buf, valid, n - 1, dst, zero)
  }

  predicate Occupied<V>(buf: seq<Update<V>>, valid: seq<bool>, i: nat, dst: int)
    requires |valid| <= |buf|
  {
    i < |valid| && valid[i] && buf[i].dst == dst
  }

  ghost predicate Distinct<V>(buf: seq<Update<V>>, valid: seq<bool>)
    requires |valid| <= |buf|
  {
    forall i, j :: 0 <= i < j < |valid| && valid[i] && valid[j] ==> buf[i].dst != buf[j].dst
  }

  // All held vertices belong to one lane.
  ghost predicate OfLane<V>(buf: seq<Update<V>>, valid: seq<bool>, lane: nat)
    requires |valid| <= |buf|
  {
    forall i :: 0 <= i < |valid| && valid[i] ==> buf[i].dst >= 0 && buf[i].dst % 16 == lane
  }

  function Distance(a: int, b: int): nat {
    if a > b then a - b else b - a
  }

  // Three numbers of a lane at most lie closer than 32 to the last one sent,
  // so four occupied slots always include one that may go.
  lemma FourIsTooMany<V>(buf: seq<Update<V>>, valid: seq<bool>, last: int, lane: nat)
    requires |valid| == SLOTS <= |buf|
    requires Distinct(buf, valid) && OfLane(buf, valid, lane)
    requires last == 0 || (last >= 0 && last % 16 == lane)
    requires forall i :: 0 <= i < SLOTS ==> valid[i]
    ensures exists i :: 0 <= i < 4 && Distance(last, buf[i].dst) >= 32
  {
    assert buf[0].dst != buf[1].dst && buf[0].dst != buf[2].dst && buf[0].dst != buf[3].dst;
    assert buf[1].dst != buf[2].dst && buf[1].dst != buf[3].dst && buf[2].dst != buf[3].dst;
    if forall i :: 0 <= i < 4 ==> Distance(last, buf[i].dst) < 32 {
      var base := if last % 16 == lane then last - 16 else lane - 16;
      forall i | 0 <= i < SLOTS ensures buf[i].dst == base || buf[i].dst == base + 16 || buf[i].dst == base + 32 {
        Near(buf[i].dst, last, lane, base);
      }
    }
  }

  lemma Near(x: int, last: int, lane: nat, base: int)
    requires x >= 0 && x % 16 == lane && Distance(last, x) < 32
    requires last == 0 || (last >= 0 && last % 16 == lane)
    requires base == if last % 16 == lane then last - 16 else lane - 16
    ensures x == base || x == base + 16 || x == base + 32
  {
    var k := x / 16 - base / 16;
    assert x == 16 * (x / 16) + lane && base % 16 == lane;
    assert x - base == 16 * k;
  }

  lemma {:induction false} HeldIs<V>(buf: seq<Update<V>>, valid: seq<bool>, n: nat, i: nat, zero: V)
    requires i < n <= |valid| <= |buf| && valid[i] && Distinct(buf, valid)
    ensures Held(buf, valid, n, buf[i].dst, zero) == buf[i].value
  {
    if i < n - 1 { HeldIs(buf, valid, n - 1, i, zero); }
  }

  lemma {:induction false} HeldNone<V>(buf: seq<Update<V>>, valid: seq<bool>, n: nat, dst: int, zero: V)
    requires n <= |valid| <= |buf| && forall i :: 0 <= i < n ==> !Occupied(buf, valid, i, dst)
    ensures Held(buf, valid, n, dst, zero) == zero
  {
    if n > 0 {
      assert !Occupied(buf, valid, n - 1, dst);
      HeldNone(buf, valid, n - 1, dst, zero);
    }
  }

  // Slots that differ only elsewhere hold the same for a vertex.
  lemma {:induction false} HeldSame<V>(buf: seq<Update<V>>, valid: seq<bool>, buf': seq<Update<V>>, valid': seq<bool>, n: nat, dst: int, zero: V)
    requires n <= |valid| == |valid'| <= |buf| == |buf'|
    requires forall i :: 0 <= i < n ==> Occupied(buf, valid, i, dst) == Occupied(buf', valid', i, dst)
    requires forall i :: 0 <= i < n && Occupied(buf, valid, i, dst) ==> buf[i] == buf'[i]
    ensures Held(buf, valid, n, dst, zero) == Held(buf', valid', n, dst, zero)
  {
    if n > 0 {
      assert Occupied(buf, valid, n - 1, dst) == Occupied(buf', valid', n - 1, dst);
      HeldSame(buf, valid, buf', valid', n - 1, dst, zero);
    }
  }

  // ---------------------------------------------------------------------
  // One iteration, on values.
  // ---------------------------------------------------------------------

  // The slots, whether each is in use, and the last vertex sent.
  datatype Slots<V> = Slots(buf: seq<Update<V>>, valid: seq<bool>, last: int)

  ghost predicate Shape<V>(s: Slots<V>) {
    |s.valid| == 4 == |s.buf|
  }

  // What every iteration keeps: distinct vertices of one lane, at most three.
  ghost predicate Good<V>(s: Slots<V>, lane: nat) {
    && Shape(s) && Distinct(s.buf, s.valid) && OfLane(s.buf, s.valid, lane)
    && (s.last == 0 || (s.last >= 0 && s.last % 16 == lane))
    && exists i :: 0 <= i < SLOTS && !s.valid[i]
  }

  predicate Hit<V>(s: Slots<V>, dst: int, n: nat)
    requires n <= |s.valid| <= |s.buf|
  {
    n > 0 && (Occupied(s.buf, s.valid, n - 1, dst) || Hit(s, dst, n - 1))
  }

  function Merged<V>(s: Slots<V>, u: Update<V>, gather: (V, V) -> V): (r: Slots<V>)
    requires |s.valid| <= |s.buf|
    ensures r.valid == s.valid && r.last == s.last && |r.buf| == |s.buf|
    ensures forall i :: 0 <= i < |s.buf| ==>
              r.buf[i] == if Occupied(s.buf, s.valid, i, u.dst) then Update(u.dst, gather(s.buf[i].value, u.value)) else s.buf[i]
  {
    s.(buf := seq(|s.buf|, i requires 0 <= i < |s.buf| =>
      if Occupied(s.buf, s.valid, i, u.dst) then Update(u.dst, gather(s.buf[i].value, u.value)) else s.buf[i]))
  }

  // The first free slot, or SLOTS.
  function FirstFree(valid: seq<bool>, i: nat): (free: nat)
    requires i <= |valid|
    ensures i <= free <= |valid|
    ensures free < |valid| ==> !valid[free]
    ensures forall k :: i <= k < free ==> valid[k]
    decreases |valid| - i
  {
    if i == |valid| || !valid[i] then i else FirstFree(valid, i + 1)
  }

  function Inserted<V>(s: Slots<V>, u: Update<V>): Slots<V>
    requires |s.valid| == |s.buf|
  {
    var free := FirstFree(s.valid, 0);
    if free == |s.valid| then s else s.(buf := s.buf[free := u], valid := s.valid[free := true])
  }

  // The first slot whose vertex is far enough from the last one, or SLOTS.
  function FirstFar<V>(s: Slots<V>, i: nat): (far: nat)
    requires i <= |s.valid| == |s.buf|
    ensures i <= far <= |s.valid|
    ensures far < |s.valid| ==> s.valid[far] && Distance(s.last, s.buf[far].dst) >= 32
    ensures forall k :: i <= k < far ==> !s.valid[k] || Distance(s.last, s.buf[k].dst) < 32
    decreases |s.valid| - i
  {
    if i == |s.valid| || (s.valid[i] && Distance(s.last, s.buf[i].dst) >= DST_INTERVAL) then i else FirstFar(s, i + 1)
  }

  function Released<V>(s: Slots<V>): (Slots<V>, seq<Update<V>>)
    requires |s.valid| == |s.buf|
  {
    var far := FirstFar(s, 0);
    if far == |s.valid| then (s, []) else (s.(valid := s.valid[far := false], last := s.buf[far].dst), [s.buf[far]])
  }

  function Step<V>(s: Slots<V>, u: Update<V>, gather: (V, V) -> V): (Slots<V>, seq<Update<V>>)
    requires |s.valid| == |s.buf|
  {
    if Hit(s, u.dst, |s.valid|) then (Merged(s, u, gather), []) else Released(Inserted(s, u))
  }

  lemma {:induction false} HitIff<V>(s: Slots<V>, dst: int, n: nat)
    requires n <= |s.valid| <= |s.buf|
    ensures Hit(s, dst, n) <==> exists i :: 0 <= i < n && Occupied(s.buf, s.valid, i, dst)
  {
    if n > 0 { HitIff(s, dst, n - 1); }
  }

  // What has been sent and what is held make up what came in.
  ghost predicate Conserved<V>(came: V, out: seq<Update<V>>, s: Slots<V>, dst: int, gather: (V, V) -> V, zero: V)
    requires Shape(s)
  {
    came == gather(Total(out, |out|, dst, gather, zero), Held(s.buf, s.valid, SLOTS, dst, zero))
  }

  function Came<V>(came: V, u: Update<V>, dst: int, gather: (V, V) -> V): V {
    if u.dst == dst then gather(came, u.value) else came
  }

  lemma MergeConserves<V(!new)>(came: V, out: seq<Update<V>>, s: Slots<V>, u: Update<V>, lane: nat, dst: int, gather: (V, V) -> V, zero: V)
    requires Monoid(gather, zero) && Good(s, lane) && Hit(s, u.dst, SLOTS)
    requires Conserved(came, out, s, dst, gather, zero)
    ensures Good(Merged(s, u, gather), lane)
    ensures Conserved(Came(came, u, dst, gather), out, Merged(s, u, gather), dst, gather, zero)
  {
    var s' := Merged(s, u, gather);
    HitIff(s, u.dst, SLOTS);
    var i :| 0 <= i < SLOTS && Occupied(s.buf, s.valid, i, u.dst);
    if u.dst == dst {
      HeldIs(s.buf, s.valid, SLOTS, i, zero);
      HeldIs(s'.buf, s'.valid, SLOTS, i, zero);
    } else {
      HeldSame(s.buf, s.valid, s'.buf, s'.valid, SLOTS, dst, zero);
    }
  }

  // A free slot exists, so nothing is ever dropped on insertion.
  lemma InsertConserves<V(!new)>(came: V, out: seq<Update<V>>, s: Slots<V>, u: Update<V>, lane: nat, dst: int, gather: (V, V) -> V, zero: V)
    requires Monoid(gather, zero) && Good(s, lane) && !Hit(s, u.dst, SLOTS)
    requires u.dst >= 0 && u.dst % 16 == lane
    requires Conserved(came, out, s, dst, gather, zero)
    ensures var s' := Inserted(s, u);
            && Shape(s') && Distinct(s'.buf, s'.valid) && OfLane(s'.buf, s'.valid, lane) && s'.last == s.last
            && Conserved(Came(came, u, dst, gather), out, s', dst, gather, zero)
  {
    var s', free := Inserted(s, u), FirstFree(s.valid, 0);
    HitIff(s, u.dst, SLOTS);
    assert free < SLOTS;
    assert Distinct(s'.buf, s'.valid) by {
      forall i, j | 0 <= i < j < SLOTS && s'.valid[i] && s'.valid[j] ensures s'.buf[i].dst != s'.buf[j].dst {
        assert !Occupied(s.buf, s.valid, i, u.dst) && !Occupied(s.buf, s.valid, j, u.dst);
      }
    }
    if u.dst == dst {
      HeldNone(s.buf, s.valid, SLOTS, dst, zero);
      HeldIs(s'.buf, s'.valid, SLOTS, free, zero);
    } else {
      HeldSame(s.buf, s.valid, s'.buf, s'.valid, SLOTS, dst, zero);
    }
  }

  // Sending a slot moves its value from held to sent.
  lemma SendConserves<V(!new)>(came: V, out: seq<Update<V>>, s: Slots<V>, i: nat, s': Slots<V>, dst: int, gather: (V, V) -> V, zero: V)
    requires Monoid(gather, zero) && Shape(s) && Distinct(s.buf, s.valid) && i < SLOTS && s.valid[i]
    requires s'.buf == s.buf && s'.valid == s.valid[i := false]
    requires Conserved(came, out, s, dst, gather, zero)
    ensures Conserved(came, out + [s.buf[i]], s', dst, gather, zero)
  {
    TotalSnoc(out, s.buf[i], dst, gather, zero);
    if s.buf[i].dst == dst {
      HeldIs(s.buf, s.valid, SLOTS, i, zero);
      HeldNone(s'.buf, s'.valid, SLOTS, dst, zero);
    } else {
      HeldSame(s.buf, s.valid, s'.buf, s'.valid, SLOTS, dst, zero);
    }
  }

  // After an insertion the slots release one vertex, at least 32 away from the
  // last, or hold at most three.
  lemma ReleaseIsGood<V>(s: Slots<V>, lane: nat)
    requires Shape(s) && Distinct(s.buf, s.valid) && OfLane(s.buf, s.valid, lane)
    requires s.last == 0 || (s.last >= 0 && s.last % 16 == lane)
    ensures Good(Released(s).0, lane)
    ensures |Released(s).1| <= 1
    ensures forall x :: x in Released(s).1 ==> Distance(s.last, x.dst) >= 32 && x.dst % 16 == lane
    ensures Released(s).0.last == if Released(s).1 == [] then s.last else Released(s).1[0].dst
  {
    var far := FirstFar(s, 0);
    if far == SLOTS {
      if forall i :: 0 <= i < SLOTS ==> s.valid[i] { FourIsTooMany(s.buf, s.valid, s.last, lane); }
    } else {
      assert !Released(s).0.valid[far];
    }
  }

  lemma StepKeeps<V(!new)>(came: V, out: seq<Update<V>>, s: Slots<V>, u: Update<V>, lane: nat, dst: int, gather: (V, V) -> V, zero: V)
    requires Monoid(gather, zero) && Good(s, lane) && u.dst >= 0 && u.dst % 16 == lane
    requires Conserved(came, out, s, dst, gather, zero)
    ensures var (s', sent) := Step(s, u, gather);
            && Good(s', lane) && Conserved(Came(came, u, dst, gather), out + sent, s', dst, gather, zero)
            && |sent| <= 1 && s'.last == (if sent == [] then s.last else sent[0].dst)
            && forall x :: x in sent ==> Distance(s.last, x.dst) >= 32
  {
    assert out + [] == out;
    if Hit(s, u.dst, SLOTS) {
      MergeConserves(came, out, s, u, lane, dst, gather, zero);
    } else {
      InsertConserves(came, out, s, u, lane, dst, gather, zero);
      var i := Inserted(s, u);
      ReleaseIsGood(i, lane);
      var far := FirstFar(i, 0);
      if far < SLOTS { SendConserves(Came(came, u, dst, gather), out, i, far, Released(i).0, dst, gather, zero); }
    }
  }

  // ---------------------------------------------------------------------
  // The solver.
  // ---------------------------------------------------------------------

  // Each of the first n updates is at least 32 away from the one before it,
  // the first from zero.
  ghost predicate Spaced<V>(us: seq<Update<V>>, n: nat)
    requires n <= |us|
  {
    forall k :: 0 <= k < n ==> Distance(Before(us, k), us[k].dst) >= 32
  }

  function Before<V>(us: seq<Update<V>>, k: nat): int
    requires k <= |us|
  {
    if k == 0 then 0 else us[k - 1].dst
  }

  // The total over the first n tokens.
  ghost function TotalIn<V>(input: seq<Token<V>>, n: nat, dst: int, gather: (V, V) -> V, zero: V): V
    requires n <= |input|
  {
    Total(Payload(input, n), n, dst, gather, zero)
  }

  lemma TotalInStep<V>(input: seq<Token<V>>, n: nat, dst: int, gather: (V, V) -> V, zero: V)
    requires n < |input|
    ensures TotalIn(input, n + 1, dst, gather, zero) == Came(TotalIn(input, n, dst, gather, zero), input[n].data, dst, gather)
  {
    assert Payload(input, n + 1) == Payload(input, n) + [input[n].data];
    TotalSnoc(Payload(input, n), input[n].data, dst, gather, zero);
  }

  // For every vertex, the first k tokens are what was sent plus what is held.
  ghost predicate Balanced<V(!new)>(input: seq<Token<V>>, k: nat, us: seq<Update<V>>, s: Slots<V>, gather: (V, V) -> V, zero: V)
    requires k <= |input| && Shape(s)
  {
    forall d :: Conserved(TotalIn(input, k, d, gather, zero), us, s, d, gather, zero)
  }

  // The updates sent so far are well spaced, and the slots remember the last.
  ghost predicate Paced<V>(us: seq<Update<V>>, last: int) {
    Spaced(us, |us|) && last == Before(us, |us|)
  }

  lemma PacedMore<V>(us: seq<Update<V>>, last: int, x: Update<V>)
    requires Paced(us, last) && Distance(last, x.dst) >= 32
    ensures Paced(us + [x], x.dst)
  {
    var us' := us + [x];
    forall k | 0 <= k < |us'|
      ensures Distance(Before(us', k), us'[k].dst) >= 32
    {
      assert Before(us', k) == Before(us, k);
      assert us'[k] == if k < |us| then us[k] else x;
    }
  }

  lemma NothingYet<V(!new)>(input: seq<Token<V>>, s: Slots<V>, lane: nat, gather: (V, V) -> V, zero: V)
    requires gather(zero, zero) == zero && Shape(s) && s.last == 0 && forall i :: 0 <= i < SLOTS ==> !s.valid[i]
    ensures Good(s, lane) && Balanced(input, 0, [], s, gather, zero) && Paced<V>([], s.last)
  {
    assert !s.valid[0];
    forall d ensures Conserved(TotalIn(input, 0, d, gather, zero), [], s, d, gather, zero) {
      HeldNone(s.buf, s.valid, SLOTS, d, zero);
    }
  }

  lemma StaysPaced<V>(us: seq<Update<V>>, last: int, sent: seq<Update<V>>, last': int)
    requires Paced(us, last) && |sent| <= 1 && last' == if sent == [] then last else sent[0].dst
    requires forall x :: x in sent ==> Distance(last, x.dst) >= 32
    ensures Paced(us + sent, last')
  {
    if sent == [] {
      assert us + sent == us;
    } else {
      assert sent == [sent[0]];
      PacedMore(us, last, sent[0]);
    }
  }

  lemma StaysBalanced<V(!new)>(input: seq<Token<V>>, k: nat, us: seq<Update<V>>, s: Slots<V>, lane: nat,
                               s': Slots<V>, sent: seq<Update<V>>, gather: (V, V) -> V, zero: V)
    requires Monoid(gather, zero) && Good(s, lane) && k < |input|
    requires input[k].data.dst >= 0 && input[k].data.dst % 16 == lane
    requires Balanced(input, k, us, s, gather, zero)
    requires (s', sent) == Step(s, input[k].data, gather)
    ensures Good(s', lane) && |sent| <= 1 && s'.last == if sent == [] then s.last else sent[0].dst
    ensures forall x :: x in sent ==> Distance(s.last, x.dst) >= 32
    ensures Balanced(input, k + 1, us + sent, s', gather, zero)
  {
    var k', us' := k + 1, us + sent;
    StepKeeps(TotalIn(input, k, 0, gather, zero), us, s, input[k].data, lane, 0, gather, zero);
    forall d ensures Conserved(TotalIn(input, k', d, gather, zero), us', s', d, gather, zero) {
      TotalInStep(input, k, d, gather, zero);
      StepKeeps(TotalIn(input, k, d, gather, zero), us, s, input[k].data, lane, d, gather, zero);
    }
  }

  class Solver<V(!new)> {
    const gather: (V, V) -> V
    const zero: V
    // Slot 4 is never in use; it only feeds the output register when no slot
    // is selected.
    const localBuffer: array<Update<V>>
    const validFlag: array<bool>
    const lastSendBuffered: array<int>

    ghost predicate Valid()
      reads this, localBuffer, validFlag, lastSendBuffered
    {
      && localBuffer.Length == SLOTS + 1 && validFlag.Length == lastSendBuffered.Length == SLOTS
      && forall i :: 0 <= i < SLOTS ==> lastSendBuffered[i] == lastSendBuffered[0]
    }

    ghost function View(): (s: Slots<V>)
      requires Valid()
      reads this, localBuffer, validFlag, lastSendBuffered
      ensures Shape(s)
    {
      Slots(localBuffer[..SLOTS], validFlag[..], lastSendBuffered[0])
    }

    constructor (gather: (V, V) -> V, zero: V)
      ensures Valid() && this.gather == gather && this.zero == zero
      ensures View().last == 0 && forall i :: 0 <= i < SLOTS ==> !View().valid[i]
      ensures fresh(localBuffer) && fresh(validFlag) && fresh(lastSendBuffered)
    {
      this.gather, this.zero := gather, zero;
      localBuffer := new Update<V>[SLOTS + 1](_ => Update(0, zero));
      validFlag := new bool[SLOTS](_ => false);
      lastSendBuffered := new int[SLOTS](_ => 0);
    }

    // Adds the update to the slot that holds its vertex, if one does.
    method Merge(u: Update<V>) returns (hit: bool)
      requires Valid()
      modifies localBuffer
      ensures Valid()
      ensures hit == Hit(old(View()), u.dst, SLOTS)
      ensures View() == Merged(old(View()), u, gather)
    {
      hit := false;
      ghost var s := View();
      var i := 0;
      while i < SLOTS
        invariant 0 <= i <= SLOTS && Valid()
        invariant hit == Hit(s, u.dst, i)
        invariant forall k :: 0 <= k < i ==> localBuffer[k] == Merged(s, u, gather).buf[k]
        invariant forall k :: i <= k < SLOTS ==> localBuffer[k] == s.buf[k]
      {
        if validFlag[i] && localBuffer[i].dst == u.dst {
          localBuffer[i] := Update(u.dst, gather(localBuffer[i].value, u.value));
          hit := true;
        }
        i := i + 1;
      }
      assert View().buf == Merged(s, u, gather).buf;
    }

    // Takes the first free slot; with none free the update would be lost.
    method Insert(u: Update<V>)
      requires Valid()
      modifies localBuffer, validFlag
      ensures Valid() && View() == Inserted(old(View()), u)
    {
      var i := 0;
      ghost var s := View();
      while i < SLOTS && validFlag[i]
        invariant 0 <= i <= SLOTS
        invariant FirstFree(s.valid, i) == FirstFree(s.valid, 0)
      {
        i := i + 1;
      }
      if i < SLOTS {
        localBuffer[i] := u;
        validFlag[i] := true;
        assert View().buf == s.buf[i := u] && View().valid == s.valid[i := true];
      }
    }

    // Sends the first slot that is far enough from the last vertex sent.
    method Release() returns (sent: seq<Update<V>>)
      requires Valid()
      modifies validFlag, lastSendBuffered
      ensures Valid() && (View(), sent) == Released(old(View()))
    {
      sent := [];
      ghost var s := View();
      var i := 0;
      while i < SLOTS && !(validFlag[i] && Distance(lastSendBuffered[i], localBuffer[i].dst) >= DST_INTERVAL)
        invariant 0 <= i <= SLOTS
        invariant FirstFar(s, i) == FirstFar(s, 0)
      {
        i := i + 1;
      }
      if i < SLOTS {
        sent := [localBuffer[i]];
        validFlag[i] := false;
        var k := 0;
        while k < SLOTS
          invariant 0 <= k <= SLOTS
          invariant forall l :: 0 <= l < k ==> lastSendBuffered[l] == localBuffer[i].dst
          modifies lastSendBuffered
        {
          lastSendBuffered[k] := localBuffer[i].dst;
          k := k + 1;
        }
        assert View().valid == s.valid[i := false] && View().buf == s.buf;
      }
    }

    method Iterate(u: Update<V>) returns (sent: seq<Update<V>>)
      requires Valid()
      modifies localBuffer, validFlag, lastSendBuffered
      ensures Valid() && (View(), sent) == Step(old(View()), u, gather)
      ensures old(Hit(View(), u.dst, 4)) ==> sent == []
      ensures sent == [] && !old(Hit(View(), u.dst, 4)) ==>
                forall i :: 0 <= i < 4 && validFlag[i] ==> Distance(View().last, localBuffer[i].dst) < 32
    {
      sent := [];
      var hit := Merge(u);
      if !hit {
        NoHitNoMerge(old(View()), u, gather);
        Insert(u);
        sent := Release();
      }
    }

    // One token taken in, with what it does to the account.
    method Take(input: seq<Token<V>>, k: nat, ghost us: seq<Update<V>>, ghost lane: nat) returns (sent: seq<Update<V>>)
      requires Valid() && Monoid(gather, zero) && k < |input|
      requires input[k].data.dst >= 0 && input[k].data.dst % 16 == lane
      requires Good(View(), lane) && Paced(us, View().last) && Balanced(input, k, us, View(), gather, zero)
      modifies localBuffer, validFlag, lastSendBuffered
      ensures Valid() && |sent| <= 1
      ensures Good(View(), lane) && Paced(us + sent, View().last)
      ensures Balanced(input, k + 1, us + sent, View(), gather, zero)
    {
      ghost var s := View();
      sent := Iterate(input[k].data);
      StaysBalanced(input, k, us, s, lane, View(), sent, gather, zero);
      StaysPaced(us, s.last, sent, View().last);
    }

    // The loop up to the end of the stream: everything that came in is either
    // sent, well spaced, or held.
    method Absorb(input: seq<Token<V>>, ghost lane: nat) returns (out: seq<Update<V>>)
      requires Valid() && Monoid(gather, zero)
      requires View().last == 0 && forall i :: 0 <= i < SLOTS ==> !View().valid[i]
      requires Running(input) < |input|
      requires forall k :: 0 <= k < Running(input) ==> input[k].data.dst >= 0 && input[k].data.dst % 16 == lane
      modifies localBuffer, validFlag, lastSendBuffered
      ensures Valid() && Good(View(), lane)
      ensures Spaced(out, |out|)
      ensures Balanced(input, Running(input), out, View(), gather, zero)
    {
      out := [];
      var k := 0;
      NothingYet(input, View(), lane, gather, zero);
      while !Ends(input[k])
        invariant 0 <= k <= Running(input)
        invariant Valid() && Good(View(), lane) && Paced(out, View().last)
        invariant Balanced(input, k, out, View(), gather, zero)
        decreases |input| - k
      {
        var sent := Take(input, k, out, lane);
        out := out + sent;
        k := k + 1;
      }
    }

    // At the end of the stream every slot in use is sent, in order, each behind
    // two bubbles that keep it 32 apart from what went before.
    method Flush(ghost input: seq<Token<V>>, ghost n: nat, ghost before: seq<Update<V>>) returns (out: seq<Update<V>>, ghost slots: seq<nat>)
      requires Valid() && Monoid(gather, zero) && n <= |input|
      requires Distinct(View().buf, View().valid)
      requires Balanced(input, n, before, View(), gather, zero)
      ensures forall d :: TotalIn(input, n, d, gather, zero) == Total(before + out, |before + out|, d, gather, zero)
      ensures InUse(View(), slots, SLOTS) && FlushOf(View(), slots, out, zero)
    {
      out, slots := [], [];
      ghost var s := View();
      FlushBegins(input, n, before, s, gather, zero);
      var i := 0;
      while i < SLOTS
        invariant 0 <= i <= SLOTS
        invariant Flushing(input, n, before, out, View(), s, i, slots, gather, zero)
      {
        hide Flushing;
        if validFlag[i] {
          s := FlushNext(input, n, before, out, View(), s, i, slots, gather, zero);
          var bubble := Update(localBuffer[i].dst + DST_INTERVAL, zero);
          out := out + [bubble, bubble, localBuffer[i]];
          slots := slots + [i];
        } else {
          FlushSkip(input, n, before, out, View(), s, i, slots, gather, zero);
        }
        i := i + 1;
      }
      EmptyIsAllSent(input, n, before + out, s, gather, zero);
    }

    // A whole run. Before the flush successive updates are at least 32 apart,
    // in the flush every held slot comes behind two bubbles 32 away from it, and
    // every vertex is gathered the same from the output as from the input.
    method Solve(input: seq<Token<V>>, ghost lane: nat) returns (out: seq<Update<V>>, ghost released: nat, ghost held: Slots<V>, ghost slots: seq<nat>)
      requires Valid() && Monoid(gather, zero)
      requires View().last == 0 && forall i :: 0 <= i < SLOTS ==> !View().valid[i]
      requires Running(input) < |input|
      requires forall k :: 0 <= k < Running(input) ==> input[k].data.dst >= 0 && input[k].data.dst % 16 == lane
      modifies localBuffer, validFlag, lastSendBuffered
      ensures released <= |out| && Spaced(out, released)
      ensures Shape(held) && InUse(held, slots, 4) && FlushOf(held, slots, out[released..], zero)
      ensures forall d :: TotalIn(input, Running(input), d, gather, zero) == Total(out, |out|, d, gather, zero)
    {
      var body := Absorb(input, lane);
      held := View();
      var tail;
      tail, slots := Flush(input, Running(input), body);
      out, released := body + tail, |body|;
      assert out[released..] == tail;
      assert forall k :: 0 <= k < released ==> out[k] == body[k];
      assert forall k :: 0 <= k < released ==> Before(out, k) == Before(body, k);
    }
  }

  // The slots in use among the first n, in ascending order.
  ghost predicate InUse<V>(s: Slots<V>, slots: seq<nat>, n: nat) {
    && Shape(s) && n <= 4
    && (forall k :: 0 <= k < |slots| ==> slots[k] < n && s.valid[slots[k]])
    && (forall j, k :: 0 <= j < k < |slots| ==> slots[j] < slots[k])
    && (forall i :: 0 <= i < n && s.valid[i] ==> i in slots)
  }

  // Two zero updates at distance 32, then the slot, for each in turn.
  ghost predicate FlushOf<V>(s: Slots<V>, slots: seq<nat>, out: seq<Update<V>>, zero: V) {
    && Shape(s) && |out| == 3 * |slots| && (forall k :: 0 <= k < |slots| ==> slots[k] < 4)
    && forall k :: 0 <= k < |slots| ==> FlushedAt(s.buf[slots[k]], out, 3 * k, zero)
  }

  ghost predicate FlushedAt<V>(u: Update<V>, out: seq<Update<V>>, at: nat, zero: V) {
    && at + 2 < |out|
    && out[at] == Update(u.dst + 32, zero) && out[at + 1] == Update(u.dst + 32, zero) && out[at + 2] == u
  }

  lemma FlushMore<V>(s: Slots<V>, slots: seq<nat>, i: nat, out: seq<Update<V>>, zero: V)
    requires InUse(s, slots, i) && FlushOf(s, slots, out, zero) && i < 4 && s.valid[i]
    ensures var bubble := Update(s.buf[i].dst + 32, zero);
            InUse(s, slots + [i], i + 1) && FlushOf(s, slots + [i], out + [bubble, bubble, s.buf[i]], zero)
  {
    var bubble := Update(s.buf[i].dst + 32, zero);
    var out', slots' := out + [bubble, bubble, s.buf[i]], slots + [i];
    assert i in slots' && forall j :: j in slots ==> j in slots';
    forall k | 0 <= k < |slots'| ensures FlushedAt(s.buf[slots'[k]], out', 3 * k, zero) {
      if k < |slots| { assert FlushedAt(s.buf[slots[k]], out, 3 * k, zero); }
    }
  }

  lemma SlotFlushed<V(!new)>(input: seq<Token<V>>, n: nat, out: seq<Update<V>>, s: Slots<V>, i: nat, s': Slots<V>,
                             bubble: Update<V>, gather: (V, V) -> V, zero: V)
    requires Monoid(gather, zero) && n <= |input| && Shape(s) && Distinct(s.buf, s.valid) && i < SLOTS && s.valid[i]
    requires s'.buf == s.buf && s'.valid == s.valid[i := false] && bubble.value == zero
    requires Balanced(input, n, out, s, gather, zero)
    ensures Balanced(input, n, out + [bubble] + [bubble] + [s.buf[i]], s', gather, zero)
  {
    var o1 := out + [bubble];
    var o2 := o1 + [bubble];
    var o3 := o2 + [s.buf[i]];
    forall d ensures Conserved(TotalIn(input, n, d, gather, zero), o3, s', d, gather, zero) {
      TotalSnoc(out, bubble, d, gather, zero);
      TotalSnoc(o1, bubble, d, gather, zero);
      SendConserves(TotalIn(input, n, d, gather, zero), o2, s, i, s', d, gather, zero);
    }
  }

  // The flush before slot i: the slots before it are sent, s is what is still held.
  ghost predicate Flushing<V(!new)>(input: seq<Token<V>>, n: nat, before: seq<Update<V>>, out: seq<Update<V>>, held: Slots<V>,
                                    s: Slots<V>, i: nat, slots: seq<nat>, gather: (V, V) -> V, zero: V) {
    && n <= |input| && Shape(held) && Shape(s) && s.buf == held.buf && Distinct(s.buf, s.valid)
    && (forall j :: 0 <= j < 4 ==> s.valid[j] == (j >= i && held.valid[j]))
    && Balanced(input, n, before + out, s, gather, zero)
    && InUse(held, slots, i) && FlushOf(held, slots, out, zero)
  }

  lemma FlushBegins<V(!new)>(input: seq<Token<V>>, n: nat, before: seq<Update<V>>, held: Slots<V>, gather: (V, V) -> V, zero: V)
    requires n <= |input| && Shape(held) && Distinct(held.buf, held.valid) && Balanced(input, n, before, held, gather, zero)
    ensures Flushing(input, n, before, [], held, held, 0, [], gather, zero)
  {
    hide Balanced;
    assert before + [] == before;
  }

  lemma FlushNext<V(!new)>(input: seq<Token<V>>, n: nat, before: seq<Update<V>>, out: seq<Update<V>>, held: Slots<V>,
                           s: Slots<V>, i: nat, slots: seq<nat>, gather: (V, V) -> V, zero: V) returns (s': Slots<V>)
    requires Monoid(gather, zero) && Flushing(input, n, before, out, held, s, i, slots, gather, zero) && i < 4 && held.valid[i]
    ensures var bubble := Update(held.buf[i].dst + 32, zero);
            Flushing(input, n, before, out + [bubble, bubble, held.buf[i]], held, s', i + 1, slots + [i], gather, zero)
  {
    hide Balanced, InUse, FlushOf;
    var bubble := Update(held.buf[i].dst + 32, zero);
    s' := s.(valid := s.valid[i := false]);
    SlotFlushed(input, n, before + out, s, i, s', bubble, gather, zero);
    assert before + out + [bubble] + [bubble] + [s.buf[i]] == before + (out + [bubble, bubble, held.buf[i]]);
    FlushMore(held, slots, i, out, zero);
  }

  lemma FlushSkip<V(!new)>(input: seq<Token<V>>, n: nat, before: seq<Update<V>>, out: seq<Update<V>>, held: Slots<V>,
                           s: Slots<V>, i: nat, slots: seq<nat>, gather: (V, V) -> V, zero: V)
    requires Flushing(input, n, before, out, held, s, i, slots, gather, zero) && i < 4 && !held.valid[i]
    ensures Flushing(input, n, before, out, held, s, i + 1, slots, gather, zero)
  {
    hide Balanced, FlushOf;
  }

  lemma EmptyIsAllSent<V(!new)>(input: seq<Token<V>>, n: nat, out: seq<Update<V>>, s: Slots<V>, gather: (V, V) -> V, zero: V)
    requires Monoid(gather, zero) && n <= |input| && Shape(s) && forall i :: 0 <= i < SLOTS ==> !s.valid[i]
    requires Balanced(input, n, out, s, gather, zero)
    ensures forall d :: TotalIn(input, n, d, gather, zero) == Total(out, |out|, d, gather, zero)
  {
    forall d ensures TotalIn(input, n, d, gather, zero) == Total(out, |out|, d, gather, zero) {
      assert Conserved(TotalIn(input, n, d, gather, zero), out, s, d, gather, zero);
      HeldNone(s.buf, s.valid, SLOTS, d, zero);
    }
  }

  lemma NoHitNoMerge<V>(s: Slots<V>, u: Update<V>, gather: (V, V) -> V)
    requires Shape(s) && !Hit(s, u.dst, SLOTS)
    ensures Merged(s, u, gather) == s
  {
    HitIff(s, u.dst, SLOTS);
    assert Merged(s, u, gather).buf == s.buf;
  }
}
