/**
 * The sixteen-way shuffle (`shuffleEntry`, `theLastShuffleEntry`) and the
 * filter behind each of its outputs (`tupleFilter`): unit i receives, in order,
 * the active edges whose destination hashes to i, then one flagged token.
 */
module Shuffle {
  import opened Decoder
  import opened DstProperty
  import opened EdgeStream

  const PE_NUM := 16

  datatype Filter<V> = Filter(last: bool, num: nat, idx: nat, data: seq<Update<V>>)

  predicate Keeps<V>(u: Update<V>, i: nat, active: V -> bool) {
    u.dst % PE_NUM == i && active(u.value)
  }

  function Updates<V>(t: Tuples<V>): (us: seq<Update<V>>)
    requires |t.dst| == |t.value| == 8
    ensures |us| == 8 && forall j :: 0 <= j < 8 ==> us[j] == Update(t.dst[j], t.value[j])
  {
    seq(8, j requires 0 <= j < 8 => Update(t.dst[j], t.value[j]))
  }

  function Valid<V>(us: seq<Update<V>>, i: nat, active: V -> bool): (valid: seq<bool>)
    requires |us| == 8
    ensures |valid| == 8 && forall j :: 0 <= j < 8 ==> valid[j] == Keeps(us[j], i, active)
  {
    seq(8, j requires 0 <= j < 8 => Keeps(us[j], i, active))
  }

  function At<V>(us: seq<Update<V>>, base: nat, lanes: seq<nat>): (r: seq<Update<V>>)
    requires forall k :: 0 <= k < |lanes| ==> base + lanes[k] < |us|
    ensures |r| == |lanes| && forall k :: 0 <= k < |lanes| ==> r[k] == us[base + lanes[k]]
  {
    seq(|lanes|, k requires 0 <= k < |lanes| => us[base + lanes[k]])
  }

  // What one filter word unpacks to.
  function Unpacked<V>(f: Filter<V>): (us: seq<Update<V>>)
    requires |f.data| == 8
    ensures |us| == f.num && forall j :: 0 <= j < f.num ==> us[j] == f.data[Field(f.idx, j)]
  {
    seq(f.num, j requires 0 <= j < f.num => f.data[Field(f.idx, j)])
  }

  ghost predicate Filters<V>(fs: seq<Filter<V>>) {
    forall k :: 0 <= k < |fs| ==> |fs[k].data| == 8 && !fs[k].last
  }

  // Everything the filter words unpack to.
  ghost function Emitted<V>(fs: seq<Filter<V>>): seq<Update<V>>
    requires Filters(fs)
  {
    if fs == [] then [] else Emitted(fs[..|fs| - 1]) + Unpacked(fs[|fs| - 1])
  }

  lemma EmittedGrows<V>(fs: seq<Filter<V>>, f: Filter<V>)
    requires Filters(fs) && |f.data| == 8
    ensures (fs + [f])[..|fs|] == fs
    ensures !f.last ==> Filters(fs + [f]) && Emitted(fs + [f]) == Emitted(fs) + Unpacked(f)
  {
    assert (fs + [f])[..|fs|] == fs;
  }

  // The updates for unit i among the first n.
  function Kept<V>(us: seq<Update<V>>, n: nat, i: nat, active: V -> bool): seq<Update<V>>
    requires n <= |us|
  {
    if n == 0 then []
    else Kept(us, n - 1, i, active) + (if Keeps(us[n - 1], i, active) then [us[n - 1]] else [])
  }

  lemma AtCons<V>(us: seq<Update<V>>, base: nat, lane: nat, rest: seq<nat>)
    requires base + lane < |us| && forall k :: 0 <= k < |rest| ==> base + rest[k] < |us|
    ensures forall k :: 0 <= k < |[lane] + rest| ==> base + ([lane] + rest)[k] < |us|
    ensures At(us, base, [lane] + rest) == [us[base + lane]] + At(us, base, rest)
  {
  }

  // What the lanes from the given one on add to the updates kept so far.
  function Added<V>(us: seq<Update<V>>, base: nat, valid: seq<bool>, lane: nat): (r: seq<Update<V>>)
    requires base + 8 <= |us| && lane <= |valid| == 8
  {
    At(us, base, Selected(valid, lane))
  }

  lemma AddedStep<V>(us: seq<Update<V>>, base: nat, valid: seq<bool>, lane: nat)
    requires base + 8 <= |us| && lane < |valid| == 8
    ensures Added(us, base, valid, lane) ==
            (if valid[lane] then [us[base + lane]] else []) + Added(us, base, valid, lane + 1)
  {
    if valid[lane] {
      AtCons(us, base, lane, Selected(valid, lane + 1));
    } else {
      assert [] + Selected(valid, lane + 1) == Selected(valid, lane + 1);
    }
  }

  lemma Glue<T>(a: seq<T>, b: seq<T>, c: seq<T>)
    ensures (a + b) + c == a + (b + c)
  {
  }

  lemma {:induction false} KeptFrom<V>(us: seq<Update<V>>, base: nat, valid: seq<bool>, lane: nat, i: nat, active: V -> bool)
    requires base + 8 <= |us| && lane <= |valid| == 8
    requires forall j :: 0 <= j < 8 ==> valid[j] == Keeps(us[base + j], i, active)
    ensures Kept(us, base + 8, i, active) == Kept(us, base + lane, i, active) + Added(us, base, valid, lane)
    decreases 8 - lane
  {
    if lane < 8 {
      KeptFrom(us, base, valid, lane + 1, i, active);
      AddedStep(us, base, valid, lane);
      var one := if valid[lane] then [us[base + lane]] else [];
      Glue(Kept(us, base + lane, i, active), one, Added(us, base, valid, lane + 1));
    }
  }

  lemma KeptAlone<V>(data: seq<Update<V>>, i: nat, active: V -> bool)
    requires |data| == 8
    ensures Kept(data, |data|, i, active) == Added(data, 0, Valid(data, i, active), 0)
  {
    var valid := Valid(data, i, active);
    KeptFrom(data, 0, valid, 0, i, active);
    assert [] + Added(data, 0, valid, 0) == Added(data, 0, valid, 0);
  }

  // The updates kept of eight more are those kept of the eight alone.
  lemma KeptMore<V>(us: seq<Update<V>>, base: nat, data: seq<Update<V>>, i: nat, active: V -> bool)
    requires base + 8 <= |us| && data == us[base..base + 8]
    ensures Kept(us, base + 8, i, active) == Kept(us, base, i, active) + Kept(data, |data|, i, active)
  {
    var valid := Valid(data, i, active);
    KeptFrom(us, base, valid, 0, i, active);
    KeptAlone(data, i, active);
    assert Added(us, base, valid, 0) == Added(data, 0, valid, 0);
  }

  lemma UnpacksSelection<V>(valid: seq<bool>, f: Filter<V>)
    requires |f.data| == 8 == |valid|
    requires f.num == |Selected(valid, 0)| && forall j :: 0 <= j < f.num ==> Field(f.idx, j) == Selected(valid, 0)[j]
    ensures Unpacked(f) == Added(f.data, 0, valid, 0)
  {
  }

  // The filter word for one tuple unpacks to exactly the updates it keeps, and
  // only a word with none of them is held back.
  method Screen<V>(data: seq<Update<V>>, last: bool, i: nat, active: V -> bool) returns (send: bool, filter: Filter<V>)
    requires |data| == 8
    ensures filter.data == data && filter.last == last
    ensures last ==> send && filter.num == 1
    ensures !last ==> Unpacked(filter) == Kept(data, |data|, i, active)
    ensures !last && !send ==> Kept(data, |data|, i, active) == []
  {
    var valid := Valid(data, i, active);
    var opcode, lanes := Decode(valid);
    filter := Filter(last, if last then 1 else lanes.num, lanes.idx, data);
    send := opcode != 0 || last;
    if !last {
      UnpacksSelection(valid, filter);
      KeptAlone(data, i, active);
    }
  }

  // Eight-wide tuples of which number n is the first flagged one.
  ghost predicate FirstFlagged<V>(input: seq<Tuples<V>>, n: nat) {
    && n < |input| && input[n].last
    && (forall m :: 0 <= m < n ==> !input[m].last)
    && (forall m :: 0 <= m < |input| ==> |input[m].dst| == |input[m].value| == 8)
  }

  // The updates for unit i in the first n tuples.
  ghost function Chosen<V>(input: seq<Tuples<V>>, n: nat, i: nat, active: V -> bool): seq<Update<V>>
    requires n <= |input| && forall m :: 0 <= m < |input| ==> |input[m].dst| == |input[m].value| == 8
  {
    if n == 0 then []
    else
      var data := Updates(input[n - 1]);
      Chosen(input, n - 1, i, active) + Kept(data, |data|, i, active)
  }

  // The updates us are those of the first n tuples, eight a tuple.
  ghost predicate Flattened<V>(input: seq<Tuples<V>>, us: seq<Update<V>>, n: nat)
    requires n <= |input| && forall m :: 0 <= m < |input| ==> |input[m].dst| == |input[m].value| == 8
  {
    |us| >= 8 * n && forall m, j :: 0 <= m < n && 0 <= j < 8 ==> us[8 * m + j] == Update(input[m].dst[j], input[m].value[j])
  }

  lemma {:induction false} ChosenIsKept<V>(input: seq<Tuples<V>>, us: seq<Update<V>>, n: nat, i: nat, active: V -> bool)
    requires n <= |input| && forall m :: 0 <= m < |input| ==> |input[m].dst| == |input[m].value| == 8
    requires Flattened(input, us, n)
    ensures Chosen(input, n, i, active) == Kept(us, 8 * n, i, active)
  {
    if n > 0 {
      var m, data := n - 1, Updates(input[n - 1]);
      ChosenIsKept(input, us, m, i, active);
      forall j | 0 <= j < 8 ensures us[8 * m..8 * m + 8][j] == data[j] {
        assert us[8 * m + j] == Update(input[m].dst[j], input[m].value[j]);
      }
      KeptMore(us, 8 * m, data, i, active);
    }
  }

  // The filter stream of one run: ordinary words, then the end word with its
  // single meaningless update.
  ghost predicate Ended<V>(filters: seq<Filter<V>>) {
    && filters != [] && Filters(filters[..|filters| - 1])
    && var f := filters[|filters| - 1]; f.last && f.num == 1 && |f.data| == 8
  }

  lemma TakeMore<T>(s: seq<T>, m: nat)
    requires m < |s|
    ensures s[..m] + [s[m]] == s[..m + 1]
  {
  }

  lemma EndsStream<V>(filters: seq<Filter<V>>, f: Filter<V>)
    requires Filters(filters) && f.last && f.num == 1 && |f.data| == 8
    ensures Ended(filters + [f]) && (filters + [f])[..|filters|] == filters
  {
    assert (filters + [f])[..|filters|] == filters;
  }

  // The words sent so far, and what screening tuple m makes of them.
  lemma ScreenedNext<V>(input: seq<Tuples<V>>, n: nat, m: nat, i: nat, active: V -> bool,
                        filters: seq<Filter<V>>, send: bool, f: Filter<V>)
    requires FirstFlagged(input, n) && m < n
    requires Filters(filters) && Emitted(filters) == Chosen(input, m, i, active)
    requires f.data == Updates(input[m]) && !f.last
    requires Unpacked(f) == Kept(f.data, |f.data|, i, active)
    requires !send ==> Kept(f.data, |f.data|, i, active) == []
    ensures var filters' := if send then filters + [f] else filters;
            Filters(filters') && Emitted(filters') == Chosen(input, m + 1, i, active)
  {
    if send { EmittedGrows(filters, f); }
  }

  // One entry of the chain. It forwards what it reads and stops at the end
  // flag, for which it sends a word whatever the tuple holds.
  method ShuffleEntry<V>(i: nat, input: seq<Tuples<V>>, active: V -> bool, ghost n: nat)
    returns (next: seq<Tuples<V>>, filters: seq<Filter<V>>)
    requires FirstFlagged(input, n)
    ensures next == input[..n + 1]
    ensures Ended(filters)
    ensures Emitted(filters[..|filters| - 1]) == Chosen(input, n, i, active)
  {
    next, filters := [], [];
    var m := 0;
    while true
      invariant 0 <= m <= n
      invariant next == input[..m]
      invariant Filters(filters)
      invariant Emitted(filters) == Chosen(input, m, i, active)
      decreases n - m
    {
      var t := input[m];
      TakeMore(input, m);
      next := next + [t];
      var send, filter := Screen(Updates(t), t.last, i, active);
      if t.last {
        EndsStream(filters, filter);
        filters := filters + [filter];
        break;
      }
      ScreenedNext(input, n, m, i, active, filters, send, filter);
      filters := if send then filters + [filter] else filters;
      m := m + 1;
    }
  }

  // The tokens of the updates us, none flagged.
  ghost predicate Plain<V>(tokens: seq<Token<V>>, us: seq<Update<V>>) {
    |tokens| == |us| && forall k :: 0 <= k < |us| ==> tokens[k] == Token(us[k], false)
  }

  method UnpackFilter<V>(f: Filter<V>) returns (tokens: seq<Token<V>>)
    requires |f.data| == 8
    ensures |tokens| == f.num
    ensures !f.last ==> Plain(tokens, Unpacked(f))
    ensures f.last && f.num == 1 ==> tokens[0].last
  {
    tokens := [];
    var j := 0;
    while j < f.num
      invariant 0 <= j <= f.num && |tokens| == j
      invariant forall k :: 0 <= k < j ==> tokens[k] == Token(Unpacked(f)[k], f.last && k == f.num - 1)
    {
      tokens := tokens + [Token(f.data[Field(f.idx, j)], j == f.num - 1 && f.last)];
      j := j + 1;
    }
  }

  // Unpacks the filter words in order; only the very last token is flagged.
  method TupleFilter<V>(filters: seq<Filter<V>>) returns (tokens: seq<Token<V>>)
    requires Ended(filters)
    ensures tokens != [] && tokens[|tokens| - 1].last
    ensures Plain(tokens[..|tokens| - 1], Emitted(filters[..|filters| - 1]))
  {
    tokens := [];
    var k := 0;
    ghost var n := |filters| - 1;
    while true
      invariant 0 <= k <= n
      invariant Filters(filters[..k]) && Plain(tokens, Emitted(filters[..k]))
      decreases n - k
    {
      var f := filters[k];
      assert k < n ==> f == filters[..n][k];
      var more := UnpackFilter(f);
      if f.last {
        assert (tokens + more)[..|tokens|] == tokens;
        tokens := tokens + more;
        break;
      }
      EmittedGrows(filters[..k], f);
      assert filters[..k] + [f] == filters[..k + 1];
      tokens := tokens + more;
      k := k + 1;
    }
  }
}
