/**
 * Superstep after superstep on all nodes: however kernels and ring are timed,
 * every node ends with what one machine would compute that takes all
 * properties through the same function as often.
 */
module HostSupersteps {
  import opened Frames
  import opened RingNode
  import opened Ring
  import opened WriteProp
  import opened PropCopy
  import opened PropExchange
  import opened RingSupersteps
  import opened HostLoop

  // What the nodes share: 512-bit words per partition, partitions, each node's
  // schedule, and the word that gather and apply make for an address out of all
  // the properties of the superstep before.
  datatype Graph = Graph(words: nat, partitions: nat, schedule: seq<seq<nat>>, compute: (seq<nat>, nat) -> nat)

  ghost predicate ValidGraph(g: Graph) {
    && g.words > 0 && g.words % 64 == 0 && 0 < |g.schedule| < 0x8000_0000
    && g.partitions * g.words <= 0x8000_0000
    && ScheduledOnce(g.schedule, g.partitions)
    && forall k :: 0 <= k < |g.schedule| ==> g.schedule[k] != []
  }

  // One superstep of all nodes: their memories before and after, the undefined
  // bits of each `readProp` run, what they sent and what their `writeProp`
  // stored after how many frames, and the states the ring went through.
  datatype Round = Round(before: seq<Memory>, after: seq<Memory>, junk: seq<nat -> nat>, sent: seq<seq<Frame>>,
                         stores: seq<seq<Write>>, consumed: seq<nat>, ring: seq<State>)

  ghost predicate AllNodes(g: Graph, r: Round) {
    && |r.before| == |r.after| == |r.junk| == |r.sent| == |r.stores| == |r.consumed| == |g.schedule| && r.ring != []
    && forall t :: 0 <= t < |r.ring| ==> |r.ring[t].port| == |g.schedule|
  }

  ghost predicate RightSize(g: Graph, m: Memory) {
    |m.temp| == |m.prop| == |m.propNew| == g.partitions * g.words
  }

  // The exchange as the host sees it.
  ghost function JobOf(g: Graph, r: Round): Job
    requires AllNodes(g, r)
  {
    Job(g.words, g.partitions, g.schedule, seq(|r.after|, k requires 0 <= k < |r.after| => r.after[k].temp), r.junk)
  }

  // What has reached node `k` in this round.
  ghost function Arrived(g: Graph, r: Round, k: nat): seq<Frame>
    requires AllNodes(g, r) && k < |g.schedule|
  {
    Since(r.ring, |r.ring| - 1, k)
  }

  // Node `k` ran its superstep and its `writeProp` stopped.
  ghost predicate NodeRan(g: Graph, superStep: nat, r: Round, k: nat)
    requires AllNodes(g, r) && k < |g.schedule|
  {
    && RightSize(g, r.before[k])
    && Executed(r.before[k], r.after[k], superStep, k, g.words, g.schedule[k], r.junk[k], g.compute, r.sent[k], r.stores[k])
    && HasCounted(JobOf(g, r), Arrived(g, r, k), r.consumed[k])
    && r.stores[k] == Scan(Arrived(g, r, k), r.consumed[k]).writes
  }

  ghost predicate RoundRan(g: Graph, c: Config, superStep: nat, r: Round) {
    && ValidGraph(g) && AllNodes(g, r) && |c.own| == |g.schedule| == |c.ids|
    && (forall k :: 0 <= k < |c.ids| ==> c.ids[k] == k)
    && Moves(Append(c, Config(c.ids, r.sent)), r.ring)
    && forall k :: 0 <= k < |g.schedule| ==> NodeRan(g, superStep, r, k)
  }

  ghost predicate CanBegin(c: Config, s: State) {
    ValidConfig(c) && Inv(c, s) && AllHold(c, s)
  }

  // All nodes are about to read the same properties.
  ghost predicate AllRead(ms: seq<Memory>, superStep: nat, b: seq<nat>) {
    forall k :: 0 <= k < |ms| ==> ReadOf(ms[k], superStep) == b
  }

  // All properties taken one superstep on.
  ghost function NextValues(g: Graph, b: seq<nat>): (r: seq<nat>)
    ensures |r| == g.partitions * g.words && forall a :: 0 <= a < |r| ==> r[a] == g.compute(b, a)
  {
    seq(g.partitions * g.words, a requires 0 <= a => g.compute(b, a))
  }

  ghost function Iterate(g: Graph, b: seq<nat>, n: nat): seq<nat> {
    if n == 0 then b else NextValues(g, Iterate(g, b, n - 1))
  }

  // ----- one round -----

  lemma RanSizes(g: Graph, superStep: nat, r: Round, k: nat)
    requires AllNodes(g, r) && k < |g.schedule| && NodeRan(g, superStep, r, k)
    ensures RightSize(g, r.after[k]) && RangesFit(r.after[k].temp, k, g.words, g.schedule[k])
    ensures r.sent[k] == NodeFrames(r.after[k].temp, k, g.words, g.schedule[k], r.junk[k])
  {
  }

  lemma JobIsValid(g: Graph, c: Config, superStep: nat, r: Round)
    requires RoundRan(g, c, superStep, r)
    ensures ValidJob(JobOf(g, r)) && ConfigOf(JobOf(g, r)) == Config(c.ids, r.sent)
  {
    var j := JobOf(g, r);
    forall k | 0 <= k < |j.temp| ensures RightSize(g, r.after[k]) && j.temp[k] == r.after[k].temp {
      RanSizes(g, superStep, r, k);
    }
    var d := ConfigOf(j);
    forall k | 0 <= k < |d.own| ensures d.own[k] == r.sent[k] {
      RanSizes(g, superStep, r, k);
    }
    assert d.ids == c.ids && d.own == r.sent;
  }

  lemma RoundIsSuperstep(g: Graph, c: Config, superStep: nat, r: Round)
    requires RoundRan(g, c, superStep, r) && CanBegin(c, r.ring[0])
    ensures ValidJob(JobOf(g, r)) && Superstep(c, ConfigOf(JobOf(g, r)), r.ring)
  {
    JobIsValid(g, c, superStep, r);
    ConfigIsValid(JobOf(g, r));
  }

  lemma NodeComputed(g: Graph, superStep: nat, r: Round, k: nat, a: nat)
    requires AllNodes(g, r) && k < |g.schedule| && NodeRan(g, superStep, r, k)
    requires Scheduled(g.schedule[k], g.words, a) && a < g.partitions * g.words
    ensures |r.after[k].temp| == g.partitions * g.words
    ensures r.after[k].temp[a] == g.compute(ReadOf(r.before[k], superStep), a)
  {
    hide Scheduled, HasCounted, Store;
  }

  // A word is in a scheduled partition of the node it is copied from.
  lemma OwnerHas(j: Job, a: nat) returns (k: nat)
    requires ValidJob(j) && a < j.partitions * j.words
    ensures k < |j.schedule| == |j.temp| && Scheduled(j.schedule[k], j.words, a) && a < |j.temp[k]| && Value(j, a) == j.temp[k][a]
  {
    var p := PartitionOf(a, j.words, j.partitions);
    k := OwnerOf(j, p);
    assert j.partitions * j.words <= |j.temp[k]|;
    hide ValidJob, ScheduledOnce;
    assert p in j.schedule[k] && InSlot(p, j.words, a);
  }

  // And that node computed it.
  lemma OwnerComputed(g: Graph, c: Config, superStep: nat, r: Round, b: seq<nat>, a: nat)
    requires RoundRan(g, c, superStep, r) && ValidJob(JobOf(g, r)) && a < g.partitions * g.words
    requires AllRead(r.before, superStep, b)
    ensures Value(JobOf(g, r), a) == g.compute(b, a)
  {
    var k := OwnerHas(JobOf(g, r), a);
    assert NodeRan(g, superStep, r, k);
    hide NodeRan, ValidJob, Value, Scheduled;
    NodeComputed(g, superStep, r, k, a);
  }

  lemma NodeIsACopy(g: Graph, c: Config, superStep: nat, r: Round, i: nat)
    requires RoundRan(g, c, superStep, r) && CanBegin(c, r.ring[0]) && i < |g.schedule|
    ensures var j, w := JobOf(g, r), WrittenOf(r.after[i], superStep);
            ValidJob(j) && |w| == g.partitions * g.words && IsCopy(j, WrittenOf(r.before[i], superStep), w)
  {
    var j := JobOf(g, r);
    RoundIsSuperstep(g, c, superStep, r);
    assert NodeRan(g, superStep, r, i);
    hide Superstep, HasCounted, ComputedFrom, Scan, Store, IsCopy, ValidJob, CanBegin, ValidGraph, Moves;
    SuperstepIsACopy(c, j, r.ring, |r.ring| - 1, i, WrittenOf(r.before[i], superStep), r.consumed[i]);
  }

  lemma {:induction false} NodeWord(g: Graph, c: Config, superStep: nat, r: Round, b: seq<nat>, i: nat, a: nat)
    requires RoundRan(g, c, superStep, r) && CanBegin(c, r.ring[0]) && i < |g.schedule|
    requires AllRead(r.before, superStep, b) && a < g.partitions * g.words
    ensures |WrittenOf(r.after[i], superStep)| == g.partitions * g.words
    ensures WrittenOf(r.after[i], superStep)[a] == g.compute(b, a)
  {
    NodeIsACopy(g, c, superStep, r, i);
    OwnerComputed(g, c, superStep, r, b, a);
    hide RoundRan, ValidJob, CanBegin, Value, AllRead;
  }

  lemma ReadIsWritten(m: Memory, superStep: nat)
    ensures ReadOf(m, superStep + 1) == WrittenOf(m, superStep)
  {
  }

  lemma IsNext(g: Graph, b: seq<nat>, w: seq<nat>)
    requires |w| == g.partitions * g.words && forall a :: 0 <= a < |w| ==> w[a] == g.compute(b, a)
    ensures w == NextValues(g, b)
  {
  }

  lemma {:induction false} NodeGetsAll(g: Graph, c: Config, superStep: nat, r: Round, b: seq<nat>, i: nat)
    requires RoundRan(g, c, superStep, r) && CanBegin(c, r.ring[0]) && i < |g.schedule|
    requires AllRead(r.before, superStep, b)
    ensures ReadOf(r.after[i], superStep + 1) == NextValues(g, b)
  {
    NodeIsACopy(g, c, superStep, r, i);
    assert i < |r.after|;
    hide *;
    var w := WrittenOf(r.after[i], superStep);
    forall a | 0 <= a < |w| ensures w[a] == g.compute(b, a) {
      NodeWord(g, c, superStep, r, b, i, a);
    }
    IsNext(g, b, w);
    ReadIsWritten(r.after[i], superStep);
  }

  // One superstep, whatever the timing: the buffer every node reads next is
  // computed, all of it, from the one they have just read, and the ring is ready
  // for the next superstep.
  lemma RoundComputes(g: Graph, c: Config, superStep: nat, r: Round, b: seq<nat>)
    requires RoundRan(g, c, superStep, r) && CanBegin(c, r.ring[0])
    requires AllRead(r.before, superStep, b)
    ensures AllRead(r.after, superStep + 1, NextValues(g, b))
    ensures CanBegin(Append(c, Config(c.ids, r.sent)), r.ring[|r.ring| - 1])
  {
    forall i | 0 <= i < |g.schedule| ensures ReadOf(r.after[i], superStep + 1) == NextValues(g, b) {
      NodeGetsAll(g, c, superStep, r, b, i);
    }
    RoundLeavesRing(g, c, superStep, r);
  }

  lemma AllCounted(g: Graph, c: Config, superStep: nat, r: Round)
    requires RoundRan(g, c, superStep, r)
    ensures forall i :: 0 <= i < |c.ids| ==> HasCounted(JobOf(g, r), Since(r.ring, |r.ring| - 1, i), r.consumed[i])
  {
    forall i | 0 <= i < |c.ids| ensures HasCounted(JobOf(g, r), Since(r.ring, |r.ring| - 1, i), r.consumed[i]) {
      assert NodeRan(g, superStep, r, i);
      hide HasCounted;
    }
  }

  lemma RoundLeavesRing(g: Graph, c: Config, superStep: nat, r: Round)
    requires RoundRan(g, c, superStep, r) && CanBegin(c, r.ring[0])
    ensures CanBegin(Append(c, Config(c.ids, r.sent)), r.ring[|r.ring| - 1])
  {
    var j := JobOf(g, r);
    RoundIsSuperstep(g, c, superStep, r);
    JobIsValid(g, c, superStep, r);
    ConfigIsValid(j);
    AllCounted(g, c, superStep, r);
    hide ValidGraph, HasCounted, Superstep, Inv, AllHold, ValidJob, NodeRan, Moves;
    AppendIsValid(c, ConfigOf(j));
    NextCanBegin(c, j, r.ring, |r.ring| - 1, r.consumed);
  }

  // ----- all rounds -----

  // All that was sent in the first `s` rounds.
  ghost function ConfigAt(g: Graph, rounds: seq<Round>, s: nat): (c: Config)
    requires s <= |rounds| && forall i :: 0 <= i < |rounds| ==> |rounds[i].sent| == |g.schedule|
    ensures |c.own| == |g.schedule| && c.ids == seq(|g.schedule|, k => k)
  {
    var ids := seq(|g.schedule|, k => k);
    if s == 0 then Config(ids, seq(|ids|, _ => []))
    else Append(ConfigAt(g, rounds, s - 1), Config(ids, rounds[s - 1].sent))
  }

  // Supersteps in turn, a barrier between them.
  ghost predicate History(g: Graph, rounds: seq<Round>) {
    && ValidGraph(g)
    && (forall s :: 0 <= s < |rounds| ==> AllNodes(g, rounds[s]))
    && (forall s :: 0 <= s < |rounds| ==> RoundRan(g, ConfigAt(g, rounds, s), s, rounds[s]))
    && (rounds != [] ==> rounds[0].ring[0] == Initial(ConfigAt(g, rounds, 0)))
    && forall s :: 0 < s < |rounds| ==> GoesOn(rounds, s)
  }

  // Round `s` takes over memories and ring from the one before.
  ghost predicate GoesOn(rounds: seq<Round>, s: nat)
    requires 0 < s < |rounds|
  {
    var last := rounds[s - 1];
    rounds[s].before == last.after && last.ring != [] && rounds[s].ring != [] && rounds[s].ring[0] == last.ring[|last.ring| - 1]
  }

  lemma RanksAreValid(g: Graph, rounds: seq<Round>)
    requires History(g, rounds) && rounds != []
    ensures CanBegin(ConfigAt(g, rounds, 0), rounds[0].ring[0])
  {
    var ids := seq(|g.schedule|, k => k);
    var c := Config(ids, seq(|ids|, _ => []));
    assert ValidConfig(c);
    FirstCanBegin(ids);
  }

  // If all nodes start from the same properties, then `n` supersteps leave on
  // every node, in the buffer that parity selects, these properties taken `n`
  // times through the whole-graph computation.
  lemma {:induction false} SuperstepsIterate(g: Graph, rounds: seq<Round>, b: seq<nat>, n: nat)
    requires History(g, rounds) && 0 < n <= |rounds|
    requires AllRead(rounds[0].before, 0, b)
    ensures AllRead(rounds[n - 1].after, n, Iterate(g, b, n))
    ensures CanBegin(ConfigAt(g, rounds, n), rounds[n - 1].ring[|rounds[n - 1].ring| - 1])
  {
    if n == 1 {
      RanksAreValid(g, rounds);
    } else {
      SuperstepsIterate(g, rounds, b, n - 1);
      assert GoesOn(rounds, n - 1);
    }
    OneMoreRound(g, rounds, b, n);
  }

  lemma {:induction false} OneMoreRound(g: Graph, rounds: seq<Round>, b: seq<nat>, n: nat)
    requires History(g, rounds) && 0 < n <= |rounds| && AllRead(rounds[n - 1].before, n - 1, Iterate(g, b, n - 1))
    requires CanBegin(ConfigAt(g, rounds, n - 1), rounds[n - 1].ring[0])
    ensures AllRead(rounds[n - 1].after, n, Iterate(g, b, n))
    ensures CanBegin(ConfigAt(g, rounds, n), rounds[n - 1].ring[|rounds[n - 1].ring| - 1])
  {
    var c, r := ConfigAt(g, rounds, n - 1), rounds[n - 1];
    assert RoundRan(g, c, n - 1, r);
    hide RoundRan, CanBegin, GoesOn, AllRead, History, NextValues;
    RoundComputes(g, c, n - 1, r, Iterate(g, b, n - 1));
  }
}
