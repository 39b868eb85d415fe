/**
 * The gather kernel with its source cache: a file's source ids go out through
 * the coalescer, the read engine and eight cache elements, and come back as the
 * properties that are gathered.
 */
module CacheKernel {
  import opened CachePe
  import opened SourceCache
  import opened SourceCacheResults
  import opened ReadEngine
  import opened SourcePipeline
  import opened Partition
  import opened EdgeFile
  import opened FileKernel
  import C = Coalesce
  import N = CoalesceChain
  import E = EdgeStream
  import D = DstProperty
  import G = GatherKernel

  // ---------------------------------------------------------------------
  // One cache element over a whole pass.
  // ---------------------------------------------------------------------

  // What the two streams offer an element in one pass of its loop.
  function Offered(lookups: seq<Lookup>, taken: nat, lines: seq<Line>, read: nat, o: Offer): (r: (Option<Lookup>, Option<Line>)) {
    (if o.lookup && taken < |lookups| then Some(lookups[taken]) else None,
     if o.line && read < |lines| then Some(lines[read]) else None)
  }

  lemma OfferedIsNext(mine: seq<nat>, lines: seq<Line>, s: Pass, o: Offer)
    requires WellFormed(lines)
    ensures var offered := Offered(Lookups(mine), s.taken, lines, s.lines, o);
            && offered == (LookupAt(mine, s, o), LineAt(lines, s, o))
            && (offered.1.Some? ==> |offered.1.value.data| == 16)
  {
  }

  lemma AfterSnoc(mine: seq<nat>, lines: seq<Line>, s: Pass, offers: seq<Offer>, k: nat)
    requires Sized(s) && WellFormed(lines) && k < |offers|
    ensures After(mine, lines, s, offers[..k + 1]) == Step(mine, lines, After(mine, lines, s, offers[..k]), offers[k])
  {
    assert offers[..k + 1][..k] == offers[..k];
  }

  // A finished element has answered and passed on everything; it has finished at
  // the latest when its streams have been offered often enough.
  lemma DoneIsComplete(mem: nat -> nat, mine: seq<nat>, lines: seq<Line>, s: Pass, offers: seq<Offer>, k: nat)
    requires Inputs(mem, mine, lines) && Starts(s) && k <= |offers|
    requires Rounds(offers).rounds >= 2 * |mine| + 2 * |lines|
    requires k == |offers| || Finished(After(mine, lines, s, offers[..k]))
    ensures var t := After(mine, lines, s, offers[..k]);
            |t.out| == |mine| && t.lines == |lines| && (Safe(mine, lines) ==> Correct(mem, mine, t.out))
  {
    if k == |offers| {
      assert offers[..k] == offers;
      EveryRunFinishes(mem, mine, lines, s, offers);
    } else {
      RunScores(mem, mine, lines, s, offers[..k]);
    }
    if Safe(mine, lines) { SafeRunsAreCorrect(mem, mine, lines, s, offers[..k]); }
  }

  // One pass of an element's loop, with the streams as far as they have been read.
  method OnePass(pe: Cache, lookups: seq<Lookup>, lines: seq<Line>, offer: Offer, taken: nat, read: nat,
                 ghost mine: seq<nat>, ghost t: Pass)
    returns (taken': nat, read': nat, answer: seq<Answer>, passedOn: seq<Line>, done: bool)
    requires pe.Valid() && lookups == Lookups(mine) && WellFormed(lines) && read <= |lines|
    requires t.pe == pe.Registers() && t.prop == pe.Words() && t.taken == taken && t.lines == read
    modifies pe, pe.prop, pe.tempBuffer
    ensures pe.Valid()
    ensures Step(mine, lines, t, offer) == Pass(pe.Registers(), pe.Words(), taken', read', t.out + answer)
    ensures read <= read' <= |lines| && passedOn == lines[read..read']
    ensures done == Finished(Step(mine, lines, t, offer))
  {
    OfferedIsNext(mine, lines, t, offer);
    var offered := Offered(lookups, taken, lines, read, offer);
    var svRead, passed, sent;
    svRead, passed, sent, done := pe.Iterate(offered.0, offered.1);
    taken', read' := taken + (if svRead then 1 else 0), read + if passed.Some? then 1 else 0;
    answer := if sent.Some? then [sent.value] else [];
    passedOn := if passed.Some? then [passed.value] else [];
  }

  lemma PrefixGrows(lines: seq<Line>, n: nat, m: nat)
    requires n <= m <= |lines|
    ensures lines[..m] == lines[..n] + lines[n..m]
  {
  }

  // Runs an element with whatever was left in its memories, until it is done;
  // every line it reads goes on to the next element.
  method RunElement(lookups: seq<Lookup>, lines: seq<Line>, offers: seq<Offer>, ghost mem: nat -> nat, ghost mine: seq<nat>)
    returns (answers: seq<Answer>, passed: seq<Line>)
    requires lookups == Lookups(mine) && Inputs(mem, mine, lines)
    requires Rounds(offers).rounds >= 2 * |mine| + 2 * |lines|
    ensures |answers| == |mine| && passed == lines
    ensures Safe(mine, lines) ==> Correct(mem, mine, answers)
  {
    var pe := new Cache();
    ghost var s := Pass(pe.Registers(), pe.Words(), 0, 0, []);
    var taken, read, k, done := 0, 0, 0, false;
    answers, passed := [], [];
    while k < |offers| && !done
      invariant k <= |offers| && pe.Valid() && fresh(pe) && fresh(pe.prop) && fresh(pe.tempBuffer)
      invariant After(mine, lines, s, offers[..k]) == Pass(pe.Registers(), pe.Words(), taken, read, answers)
      invariant read <= |lines| && passed == lines[..read]
      invariant done ==> Finished(After(mine, lines, s, offers[..k]))
      decreases |offers| - k
    {
      hide Inputs, Finished, Safe, After, Step, Rounds;
      ghost var t := After(mine, lines, s, offers[..k]);
      AfterSnoc(mine, lines, s, offers, k);
      var answer, passedOn;
      ghost var before := read;
      taken, read, answer, passedOn, done := OnePass(pe, lookups, lines, offers[k], taken, read, mine, t);
      PrefixGrows(lines, before, read);
      passed := passed + passedOn;
      answers := answers + answer;
      k := k + 1;
    }
    DoneIsComplete(mem, mine, lines, s, offers, k);
  }

  // ---------------------------------------------------------------------
  // From source ids to properties.
  // ---------------------------------------------------------------------

  // The 32 bits of an id.
  function Bits(x: int): nat {
    x % 0x1_0000_0000
  }

  function Terminator(): (t: seq<nat>)
    ensures |t| == 16 && forall c :: 0 <= c < 16 ==> t[c] == 0xFFFFFFFF
  {
    seq(16, _ => INVALID_VERTEX)
  }

  // `src_stream_out`: every token up to the flagged one, then the terminator.
  method SrcStreamOut(srcStream: seq<E.Burst>, ghost tokens: nat) returns (packages: seq<Package>)
    requires |srcStream| == tokens + 1 && srcStream[tokens].last
    requires forall t :: 0 <= t < tokens ==> !srcStream[t].last && |srcStream[t].data| == 16
    ensures |packages| == tokens + 1 && packages[tokens] == Package(Terminator(), true)
    ensures forall t :: 0 <= t < tokens ==> |packages[t].data| == 16 && !packages[t].last
    ensures forall t, j :: 0 <= t < tokens && 0 <= j < 16 ==> packages[t].data[j] == Bits(srcStream[t].data[j])
  {
    packages := [];
    var k := 0;
    while true
      invariant k <= tokens && |packages| == k
      invariant forall t :: 0 <= t < k ==> |packages[t].data| == 16 && !packages[t].last
      invariant forall t, j :: 0 <= t < k && 0 <= j < 16 ==> packages[t].data[j] == Bits(srcStream[t].data[j])
      decreases tokens - k
    {
      var token := srcStream[k];
      if token.last { break; }
      packages := packages + [Package(seq(16, j requires 0 <= j < 16 && |token.data| == 16 => Bits(token.data[j])), false)];
      k := k + 1;
    }
    packages := packages + [Package(Terminator(), true)];
  }

  ghost predicate Packages(pkgs: seq<seq<nat>>) {
    pkgs != [] && forall k :: 0 <= k < |pkgs| ==> |pkgs[k]| == 16
  }

  // No id shares the last burst with the end marker.
  ghost predicate ClearOfMarker(pkgs: seq<seq<nat>>, b: nat)
    requires b > 0 && Packages(pkgs)
  {
    forall k, c :: 0 <= k < |pkgs| && 0 <= c < 16 ==> pkgs[k][c] / (16 * b) != 0xFFFFFFFF / (16 * b)
  }

  // What the coalescer has sent at some moment of some run on the packages and
  // their terminator, the end marker being out.
  ghost predicate CoalescerSent(pkgs: seq<seq<nat>>, b: nat, cmds: seq<nat>)
    requires b > 0 && Packages(pkgs)
  {
    && 0xFFFFFFFF / (16 * b) in cmds
    && exists run: seq<N.Chain>, t: nat :: N.IsRun(Columns(pkgs + [Terminator()], b), run) && t < |run| && run[t].out == cmds
  }

  // No element's share has a hazard in the lines of all ids.
  ghost predicate HazardFree(pkgs: seq<seq<nat>>, b: nat)
    requires b > 0 && Packages(pkgs)
  {
    forall i :: 0 <= i < PES ==> Safe(Share(pkgs, i), LinesFor(ZERO, b, Flatten(pkgs)))
  }

  // Enough for that: no burst number is skipped from one id to the next.
  lemma DenseIsHazardFree(pkgs: seq<seq<nat>>, b: nat)
    requires b > 0 && Packages(pkgs) && Sorted(Flatten(pkgs)) && NoBurstSkipped(Flatten(pkgs), b)
    ensures HazardFree(pkgs, b)
  {
    forall i | 0 <= i < PES ensures Safe(Share(pkgs, i), LinesFor(ZERO, b, Flatten(pkgs))) {
      ShareSorted(pkgs, i);
      DenseIdsAreSafe(ZERO, b, Flatten(pkgs), Share(pkgs, i));
    }
  }

  // Commands become lines.
  method ReadEngineRun(mem: nat -> nat, b: nat, cmds: seq<nat>, ghost pkgs: seq<seq<nat>>) returns (lines: seq<Line>)
    requires b > 0 && Packages(pkgs) && ClearOfMarker(pkgs, b) && CoalescerSent(pkgs, b, cmds)
    ensures lines == LinesFor(mem, b, Flatten(pkgs))
  {
    ghost var run: seq<N.Chain>, t: nat :| N.IsRun(Columns(pkgs + [Terminator()], b), run) && t < |run| && run[t].out == cmds;
    CommandsAreBursts(pkgs, b, Terminator(), run, t);
    var commands := Convert(cmds, INVALID_VERTEX / (16 * b));
    lines := ReadLines(mem, b, C.Dedup(BurstIds(Flatten(pkgs), b)), commands);
  }

  // Elements in a chain, each with its share of the ids, all with the same lines.
  method RunElements(turned: seq<Package>, lines: seq<Line>, offers: seq<seq<Offer>>,
                     ghost mem: nat -> nat, ghost b: nat, ghost pkgs: seq<seq<nat>>)
    returns (answers: seq<seq<Answer>>)
    requires b > 0 && Packages(pkgs) && Sorted(Flatten(pkgs)) && lines == LinesFor(mem, b, Flatten(pkgs))
    requires |turned| == |pkgs| && forall k :: 0 <= k < |turned| ==> |turned[k].data| == 16 && turned[k].last == (k == |turned| - 1)
    requires forall k, j :: 0 <= k < |turned| && 0 <= j < 16 ==> turned[k].data[j] == pkgs[k][15 - j]
    requires |offers| == PES && forall i :: 0 <= i < PES ==> Rounds(offers[i]).rounds >= 4 * |pkgs| + 2 * |lines|
    ensures |answers| == PES && forall i :: 0 <= i < PES ==> |answers[i]| == 2 * |pkgs|
    ensures HazardFree(pkgs, b) ==> forall i :: 0 <= i < PES ==> Correct(mem, Share(pkgs, i), answers[i])
  {
    answers := [];
    var passing := lines;
    var i := 0;
    while i < PES
      invariant 0 <= i <= PES && |answers| == i && passing == lines
      invariant forall j :: 0 <= j < i ==> |answers[j]| == 2 * |pkgs|
      invariant HazardFree(pkgs, b) ==> forall j :: 0 <= j < i ==> Correct(mem, Share(pkgs, j), answers[j])
    {
      var lookups := SrcDispatch(turned, i, pkgs);
      ElementInputs(mem, b, pkgs, i);
      hide Inputs, Safe, Correct, Sorted, LinesFor;
      var answer;
      answer, passing := RunElement(lookups, passing, offers[i], mem, Share(pkgs, i));
      answers := answers + [answer];
      i := i + 1;
    }
  }

  lemma ElementInputs(mem: nat -> nat, b: nat, pkgs: seq<seq<nat>>, i: nat)
    requires b > 0 && Packages(pkgs) && Sorted(Flatten(pkgs)) && i < PES
    ensures Inputs(mem, Share(pkgs, i), LinesFor(mem, b, Flatten(pkgs)))
    ensures HazardFree(pkgs, b) ==> Safe(Share(pkgs, i), LinesFor(mem, b, Flatten(pkgs)))
  {
    ShareSorted(pkgs, i);
    LinesServe(mem, b, Flatten(pkgs), Share(pkgs, i));
    if HazardFree(pkgs, b) {
      LinesSameAddresses(ZERO, mem, b, Flatten(pkgs));
      SafeDependsOnAddresses(Share(pkgs, i), LinesFor(ZERO, b, Flatten(pkgs)), LinesFor(mem, b, Flatten(pkgs)));
    }
  }

  lemma LastFlags(mem: nat -> nat, pkgs: seq<seq<nat>>, answers: seq<seq<Answer>>)
    requires Packages(pkgs) && |answers| == PES
    requires forall i :: 0 <= i < PES ==> |answers[i]| == 2 * |pkgs| && Correct(mem, Share(pkgs, i), answers[i])
    ensures forall k :: 0 <= k < |pkgs| ==> answers[LAST_PE][2 * k + 1].last == (k == |pkgs| - 1)
  {
    assert Correct(mem, Share(pkgs, LAST_PE), answers[LAST_PE]);
  }

  lemma WordsMerged(mem: nat -> nat, pkgs: seq<seq<nat>>, answers: seq<seq<Answer>>, merged: seq<Package>)
    requires Packages(pkgs) && |answers| == PES && |merged| == |pkgs|
    requires forall i :: 0 <= i < PES ==> |answers[i]| == 2 * |pkgs| && Correct(mem, Share(pkgs, i), answers[i])
    requires forall k :: 0 <= k < |pkgs| ==> Merged(merged[k], answers, k)
    ensures forall k :: 0 <= k < |pkgs| ==> |merged[k].data| == 16
    ensures forall k, j :: 0 <= k < |pkgs| && 0 <= j < 16 ==> merged[k].data[j] == mem(pkgs[k][j])
  {
    forall k | 0 <= k < |pkgs| ensures |merged[k].data| == 16 {
      assert Merged(merged[k], answers, k);
    }
    hide Correct, Merged;
    forall k, j | 0 <= k < |pkgs| && 0 <= j < 16 ensures merged[k].data[j] == mem(pkgs[k][j]) {
      MergedPackagesAreWords(mem, pkgs, answers, k, merged[k], j);
    }
  }

  // What comes back from the elements, if all their answers are right.
  method MergeAnswers(answers: seq<seq<Answer>>, ghost mem: nat -> nat, ghost pkgs: seq<seq<nat>>) returns (props: seq<seq<nat>>)
    requires Packages(pkgs) && |answers| == PES
    requires forall i :: 0 <= i < PES ==> |answers[i]| == 2 * |pkgs| && Correct(mem, Share(pkgs, i), answers[i])
    ensures |props| == |pkgs| && forall k :: 0 <= k < |pkgs| ==> |props[k]| == 16
    ensures forall k, j :: 0 <= k < |pkgs| && 0 <= j < 16 ==> props[k][j] == mem(pkgs[k][j])
  {
    LastFlags(mem, pkgs, answers);
    hide Correct;
    var merged := SrcMerge(answers, |pkgs|);
    WordsMerged(mem, pkgs, answers, merged);
    props := seq(|merged|, k requires 0 <= k < |merged| => merged[k].data);
  }

  // The whole way: if no share has a hazard, the packages that come back are the
  // memory words of the ids that went out, whatever the timing.
  method ReadSources(mem: nat -> nat, b: nat, packages: seq<Package>, cmds: seq<nat>, offers: seq<seq<Offer>>, ghost pkgs: seq<seq<nat>>)
    returns (props: seq<seq<nat>>)
    requires b > 0 && Packages(pkgs) && Sorted(Flatten(pkgs)) && Arriving(packages, pkgs)
    requires ClearOfMarker(pkgs, b) && CoalescerSent(pkgs, b, cmds) && HazardFree(pkgs, b)
    requires |offers| == PES
    requires forall i :: 0 <= i < PES ==> Rounds(offers[i]).rounds >= 4 * |pkgs| + 2 * |LinesFor(mem, b, Flatten(pkgs))|
    ensures |props| == |pkgs| && forall k :: 0 <= k < |pkgs| ==> |props[k]| == 16
    ensures forall k, j :: 0 <= k < |pkgs| && 0 <= j < 16 ==> props[k][j] == mem(pkgs[k][j])
  {
    hide Sorted, Arriving, ClearOfMarker, CoalescerSent, HazardFree, LinesFor, Flatten, Correct, Share, Rounds;
    var lines := ReadEngineRun(mem, b, cmds, pkgs);
    var turned := SrcBuffer(packages, pkgs);
    var answers := RunElements(turned, lines, offers, mem, b, pkgs);
    props := MergeAnswers(answers, mem, pkgs);
  }

  // For ids that skip no burst, which a caller can see from the ids alone.
  method ReadDenseSources(mem: nat -> nat, b: nat, packages: seq<Package>, cmds: seq<nat>, offers: seq<seq<Offer>>, ghost pkgs: seq<seq<nat>>)
    returns (props: seq<seq<nat>>)
    requires b > 0 && Packages(pkgs) && Sorted(Flatten(pkgs)) && Arriving(packages, pkgs)
    requires ClearOfMarker(pkgs, b) && CoalescerSent(pkgs, b, cmds) && NoBurstSkipped(Flatten(pkgs), b)
    requires |offers| == PES
    requires forall i :: 0 <= i < PES ==> Rounds(offers[i]).rounds >= 4 * |pkgs| + 2 * |LinesFor(mem, b, Flatten(pkgs))|
    ensures |props| == |pkgs| && forall k :: 0 <= k < |pkgs| ==> |props[k]| == 16
    ensures forall k, j :: 0 <= k < |pkgs| && 0 <= j < 16 ==> props[k][j] == mem(pkgs[k][j])
  {
    DenseIsHazardFree(pkgs, b);
    hide HazardFree, Sorted, Arriving, ClearOfMarker, CoalescerSent, LinesFor, Flatten, Rounds;
    props := ReadSources(mem, b, packages, cmds, offers, pkgs);
  }

  // ---------------------------------------------------------------------
  // The kernel and its cache on an edge file.
  // ---------------------------------------------------------------------

  // Sources are 32-bit numbers.
  ghost predicate SourceIds(file: seq<Edge>) {
    forall e :: 1 <= e < |file| ==> 0 <= file[e].src < 0x1_0000_0000
  }

  // The ids a file sends out, sixteen a package.
  function SourcePackage(file: seq<Edge>, t: nat): (pkg: seq<nat>)
    requires 16 * t + 16 < |file|
    ensures |pkg| == 16 && forall j :: 0 <= j < 16 ==> pkg[j] == Bits(file[16 * t + j + 1].src)
  {
    seq<nat>(16, j requires 0 <= j < 16 => Bits(file[16 * t + j + 1].src))
  }

  function SourcePackages(file: seq<Edge>): (pkgs: seq<seq<nat>>)
    ensures |pkgs| == (if file == [] then 0 else (|file| - 1) / 16) && forall t :: 0 <= t < |pkgs| ==> |pkgs[t]| == 16
    ensures forall t, j :: 0 <= t < |pkgs| && 0 <= j < 16 ==> pkgs[t][j] == Bits(file[16 * t + j + 1].src)
  {
    if file == [] then []
    else seq<seq<nat>>((|file| - 1) / 16, t requires 0 <= t < (|file| - 1) / 16 => SourcePackage(file, t))
  }

  lemma PackagesSorted(file: seq<Edge>, n: nat)
    requires IsEdgeFile(file, n) && SourceIds(file)
    ensures Packages(SourcePackages(file)) && Sorted(Flatten(SourcePackages(file)))
  {
    var ids := Flatten(SourcePackages(file));
    forall q, r | 0 <= q <= r < |ids| ensures ids[q] <= ids[r] {
      SourceAt(file, q);
      SourceAt(file, r);
      assert file[1..][q].src <= file[1..][r].src;
    }
  }

  lemma SourceAt(file: seq<Edge>, q: nat)
    requires |file| > 0 && SourceIds(file) && q < 16 * ((|file| - 1) / 16)
    ensures Flatten(SourcePackages(file))[q] == file[q + 1].src
  {
    assert q == 16 * (q / 16) + q % 16;
  }

  // The packages `gs` sends for a file, as they arrive at the cache.
  method SendSources(file: seq<Edge>, ghost n: nat) returns (packages: seq<Package>)
    requires IsEdgeFile(file, n)
    ensures Arriving(packages, SourcePackages(file))
  {
    FileFitsTokens(file, n);
    ghost var tokens := (|file| - 1) / 16;
    var srcStream, dstStream := E.BurstRead(2 * file[0].src, EdgeFile.Words(file));
    TokensAreSources(file, srcStream);
    packages := SrcStreamOut(srcStream, tokens);
    forall t | 0 <= t < tokens ensures packages[t] == Package(SourcePackages(file)[t], false) {
      assert packages[t].data == SourcePackages(file)[t];
    }
  }

  lemma TokensAreSources(file: seq<Edge>, srcStream: seq<E.Burst>)
    requires |file| > 0 && E.Carries(srcStream, EdgeFile.Words(file), 0, (|file| - 1) / 16)
    ensures forall t :: 0 <= t < (|file| - 1) / 16 ==> !srcStream[t].last && |srcStream[t].data| == 16
    ensures forall t, j :: 0 <= t < (|file| - 1) / 16 && 0 <= j < 16 ==> srcStream[t].data[j] == file[16 * t + j + 1].src
  {
    forall t | 0 <= t < (|file| - 1) / 16 ensures E.Holds(srcStream[t].data, 16, EdgeFile.Words(file), 0, t) {
    }
    forall t, j | 0 <= t < (|file| - 1) / 16 && 0 <= j < 16 ensures srcStream[t].data[j] == file[16 * t + j + 1].src {
      assert srcStream[t].data[j] == EdgeFile.Words(file)[2 * (16 * t + j)];
    }
  }

  // The kernel with its cache: on a file whose sources are free of hazards, and
  // for any timing of coalescer and elements, output word v is the in-order
  // gather, over exactly the edges of the list whose source is active, of what
  // the property stage makes of the sources' memory words.
  method GatherWithCache(file: seq<Edge>, ghost n: nat, mem: nat -> nat, b: nat, cmds: seq<nat>, offers: seq<seq<Offer>>,
                         stage0: nat -> nat, active: nat -> bool,
                         units: seq<D.DstUnit<nat>>, words: nat, ghost gather: (nat, nat) -> nat, ghost zero: nat)
    returns (out: seq<seq<nat>>)
    requires IsEdgeFile(file, n) && SourceIds(file) && b > 0 && Packages(SourcePackages(file))
    requires ClearOfMarker(SourcePackages(file), b) && CoalescerSent(SourcePackages(file), b, cmds)
    requires HazardFree(SourcePackages(file), b)
    requires |offers| == PES && forall i :: 0 <= i < PES ==>
               Rounds(offers[i]).rounds >= 4 * |SourcePackages(file)| + 2 * |LinesFor(mem, b, Flatten(SourcePackages(file)))|
    requires words > 0 && words % 32 == 0 && UnitsIdle(units, words, gather, zero)
    modifies units, G.Buffers(units)
    ensures UnitsIdle(units, words, gather, zero)
    ensures GathersEdges(out, Records(file, n), x => mem(Bits(x)), stage0, words, active, gather, zero)
  {
    PackagesSorted(file, n);
    var packages := SendSources(file, n);
    var props := ReadSources(mem, b, packages, cmds, offers, SourcePackages(file));
    ghost var lookup: int -> nat := x => mem(Bits(x));
    assert Looked(file, props, lookup);
    out := GatherFile(file, n, props, lookup, stage0, active, units, words, gather, zero);
  }

  // The sources of a file skip no burst.
  ghost predicate DenseSources(file: seq<Edge>, b: nat)
    requires b > 0
  {
    forall e :: 2 <= e < |file| ==> file[e].src / (16 * b) <= file[e - 1].src / (16 * b) + 1
  }

  lemma DenseFile(file: seq<Edge>, n: nat, b: nat)
    requires IsEdgeFile(file, n) && SourceIds(file) && b > 0 && DenseSources(file, b)
    ensures Packages(SourcePackages(file)) && HazardFree(SourcePackages(file), b)
  {
    PackagesSorted(file, n);
    var ids := Flatten(SourcePackages(file));
    forall q | 0 < q < |ids| ensures ids[q] / (16 * b) <= ids[q - 1] / (16 * b) + 1 {
      SourceAt(file, q);
      SourceAt(file, q - 1);
    }
    DenseIsHazardFree(SourcePackages(file), b);
  }

  // The same on a file whose sources skip no burst.
  method GatherDense(file: seq<Edge>, ghost n: nat, mem: nat -> nat, b: nat, cmds: seq<nat>, offers: seq<seq<Offer>>,
                     stage0: nat -> nat, active: nat -> bool,
                     units: seq<D.DstUnit<nat>>, words: nat, ghost gather: (nat, nat) -> nat, ghost zero: nat)
    returns (out: seq<seq<nat>>)
    requires IsEdgeFile(file, n) && SourceIds(file) && b > 0 && Packages(SourcePackages(file))
    requires DenseSources(file, b)
    requires ClearOfMarker(SourcePackages(file), b) && CoalescerSent(SourcePackages(file), b, cmds)
    requires |offers| == PES && forall i :: 0 <= i < PES ==>
               Rounds(offers[i]).rounds >= 4 * |SourcePackages(file)| + 2 * |LinesFor(mem, b, Flatten(SourcePackages(file)))|
    requires words > 0 && words % 32 == 0 && UnitsIdle(units, words, gather, zero)
    modifies units, G.Buffers(units)
    ensures UnitsIdle(units, words, gather, zero)
    ensures GathersEdges(out, Records(file, n), x => mem(Bits(x)), stage0, words, active, gather, zero)
  {
    DenseFile(file, n, b);
    out := GatherWithCache(file, n, mem, b, cmds, offers, stage0, active, units, words, gather, zero);
  }
}
