/**
 * How good the block allocation is: jobs are put, one after the other, on the
 * least loaded of four lists. Any order stays within 7/4 of the best possible
 * makespan; descending order, which the partitioner uses, within 5/4.
 */
module Greedy {
  const LISTS := 4

  // An assignment names a list for each job.
  ghost predicate Assignment(a: seq<nat>) {
    forall k :: 0 <= k < |a| ==> a[k] < LISTS
  }

  // How many of the first n jobs go to a list, and their total size.
  function Count(a: seq<nat>, n: nat, l: nat): nat
    requires n <= |a|
  {
    if n == 0 then 0 else Count(a, n - 1, l) + (if a[n - 1] == l then 1 else 0)
  }

  function Load(p: seq<nat>, a: seq<nat>, n: nat, l: nat): nat
    requires n <= |a| && n <= |p|
  {
    if n == 0 then 0 else Load(p, a, n - 1, l) + (if a[n - 1] == l then p[n - 1] else 0)
  }

  function Sum(p: seq<nat>, n: nat): nat
    requires n <= |p|
  {
    if n == 0 then 0 else Sum(p, n - 1) + p[n - 1]
  }

  ghost predicate Descending(p: seq<nat>) {
    forall i, j :: 0 <= i <= j < |p| ==> p[i] >= p[j]
  }

  // No list of the assignment carries more than bound.
  ghost predicate Within(p: seq<nat>, a: seq<nat>, bound: nat)
    requires |a| == |p|
  {
    forall l :: 0 <= l < LISTS ==> Load(p, a, |p|, l) <= bound
  }

  // The least loaded list, the first among equals.
  function LeastLoaded(loads: seq<nat>, n: nat): (m: nat)
    requires 1 <= n <= |loads|
    ensures m < n && forall l :: 0 <= l < n ==> loads[m] <= loads[l]
    ensures forall l :: 0 <= l < m ==> loads[m] < loads[l]
  {
    if n == 1 then 0
    else
      var m := LeastLoaded(loads, n - 1);
      if loads[n - 1] < loads[m] then n - 1 else m
  }

  function Loads(p: seq<nat>, a: seq<nat>, n: nat): (r: seq<nat>)
    requires n <= |a| && n <= |p|
    ensures |r| == LISTS && forall l :: 0 <= l < LISTS ==> r[l] == Load(p, a, n, l)
  {
    [Load(p, a, n, 0), Load(p, a, n, 1), Load(p, a, n, 2), Load(p, a, n, 3)]
  }

  // Each job goes to a list that was least loaded when its turn came.
  ghost predicate IsGreedy(p: seq<nat>, a: seq<nat>) {
    && |a| == |p| && Assignment(a)
    && forall k :: 0 <= k < |p| ==> a[k] == LeastLoaded(Loads(p, a, k), LISTS)
  }

  lemma {:induction false} CountsAddUp(a: seq<nat>, n: nat)
    requires n <= |a| && Assignment(a)
    ensures Count(a, n, 0) + Count(a, n, 1) + Count(a, n, 2) + Count(a, n, 3) == n
  {
    if n > 0 { CountsAddUp(a, n - 1); }
  }

  lemma {:induction false} LoadsAddUp(p: seq<nat>, a: seq<nat>, n: nat)
    requires n <= |a| && n <= |p| && Assignment(a)
    ensures Load(p, a, n, 0) + Load(p, a, n, 1) + Load(p, a, n, 2) + Load(p, a, n, 3) == Sum(p, n)
  {
    if n > 0 { LoadsAddUp(p, a, n - 1); }
  }

  lemma {:induction false} LoadGrows(p: seq<nat>, a: seq<nat>, m: nat, n: nat, l: nat)
    requires m <= n <= |a| && n <= |p|
    ensures Load(p, a, m, l) <= Load(p, a, n, l)
    ensures Count(a, m, l) <= Count(a, n, l)
  {
    if m < n { LoadGrows(p, a, m, n - 1, l); }
  }

  // Every job weighs at most the bound of any assignment.
  lemma JobFits(p: seq<nat>, b: seq<nat>, opt: nat, k: nat)
    requires |b| == |p| && Assignment(b) && Within(p, b, opt) && k < |p|
    ensures p[k] <= opt
  {
    LoadGrows(p, b, k + 1, |p|, b[k]);
  }

  lemma SumFits(p: seq<nat>, b: seq<nat>, opt: nat, n: nat)
    requires |b| == |p| && Assignment(b) && Within(p, b, opt) && n <= |p|
    ensures Sum(p, n) <= 4 * opt
  {
    LoadsAddUp(p, b, n);
    LoadGrows(p, b, n, |p|, 0);
    LoadGrows(p, b, n, |p|, 1);
    LoadGrows(p, b, n, |p|, 2);
    LoadGrows(p, b, n, |p|, 3);
  }

  // The job that last raised a list, placed as number n.
  lemma {:induction false} LastJob(p: seq<nat>, a: seq<nat>, n: nat, l: nat) returns (k: nat)
    requires n <= |a| && n <= |p| && Load(p, a, n, l) > 0
    ensures k < n && a[k] == l && Load(p, a, n, l) == Load(p, a, k, l) + p[k]
  {
    if a[n - 1] == l { k := n - 1; } else { k := LastJob(p, a, n - 1, l); }
  }

  lemma GreedyPicksLeast(p: seq<nat>, a: seq<nat>, k: nat, l: nat)
    requires IsGreedy(p, a) && k < |p| && l < LISTS
    ensures Load(p, a, k, a[k]) <= Load(p, a, k, l)
  {
    assert Loads(p, a, k)[a[k]] <= Loads(p, a, k)[l];
  }

  // When job k is placed greedily, its list is no fuller than the average.
  lemma GreedyBelowAverage(p: seq<nat>, a: seq<nat>, k: nat)
    requires IsGreedy(p, a) && k < |p|
    ensures 4 * Load(p, a, k, a[k]) <= Sum(p, k)
  {
    LoadsAddUp(p, a, k);
    GreedyPicksLeast(p, a, k, 0);
    GreedyPicksLeast(p, a, k, 1);
    GreedyPicksLeast(p, a, k, 2);
    GreedyPicksLeast(p, a, k, 3);
  }

  // Just after job k, its list exceeds an average of opt by 3/4 of the job.
  lemma GreedyAfter(p: seq<nat>, a: seq<nat>, b: seq<nat>, opt: nat, k: nat)
    requires IsGreedy(p, a) && k < |p|
    requires |b| == |p| && Assignment(b) && Within(p, b, opt)
    ensures 4 * (Load(p, a, k, a[k]) + p[k]) <= 4 * opt + 3 * p[k]
  {
    GreedyBelowAverage(p, a, k);
    SumFits(p, b, opt, k + 1);
    assert Sum(p, k + 1) == Sum(p, k) + p[k];
  }

  // In any order, greedy is within 7/4 of every assignment.
  lemma GreedyWithin7Over4(p: seq<nat>, a: seq<nat>, b: seq<nat>, opt: nat, l: nat)
    requires IsGreedy(p, a) && l < LISTS
    requires |b| == |p| && Assignment(b) && Within(p, b, opt)
    ensures 4 * Load(p, a, |p|, l) <= 7 * opt
  {
    if Load(p, a, |p|, l) > 0 {
      var k := LastJob(p, a, |p|, l);
      GreedyAfter(p, a, b, opt, k);
      JobFits(p, b, opt, k);
    }
  }

  // ---------------------------------------------------------------------
  // Descending order.
  // ---------------------------------------------------------------------

  // c jobs among the first n weigh at least c times the last of them.
  lemma {:induction false} LoadAtLeast(p: seq<nat>, a: seq<nat>, m: nat, n: nat, l: nat)
    requires Descending(p) && 0 < n <= |p| && n <= |a| && m <= n
    ensures Load(p, a, n, l) >= Load(p, a, m, l) + (Count(a, n, l) - Count(a, m, l)) * p[n - 1]
    decreases n
  {
    if m < n {
      LoadGrows(p, a, m, n - 1, l);
      if n > 1 {
        LoadAtLeast(p, a, m, n - 1, l);
        Scale(Count(a, n - 1, l) - Count(a, m, l), p[n - 2], p[n - 1]);
      }
    }
  }

  lemma Scale(c: nat, x: nat, y: nat)
    requires x >= y
    ensures c * x >= c * y
    ensures (c + 1) * y == c * y + y
  {
  }

  // In any assignment of n jobs, some list holds a job of the first 9 - n and
  // another one, or three jobs.
  lemma CrowdedList(b: seq<nat>, n: nat, lead: nat) returns (l: nat)
    requires Assignment(b) && lead <= n <= |b| && n + lead >= 9
    ensures l < LISTS && Count(b, n, l) + Count(b, lead, l) >= 3
  {
    CountsAddUp(b, n);
    CountsAddUp(b, lead);
    l :| l < LISTS && Count(b, n, l) + Count(b, lead, l) >= 3;
  }

  lemma Three(c: nat, x: nat)
    requires c >= 3
    ensures c * x >= 3 * x
  {
  }

  // Three jobs of a list weigh at least three times the last job.
  lemma ThreeJobs(p: seq<nat>, b: seq<nat>, n: nat, l: nat)
    requires Descending(p) && 0 < n <= |p| && n <= |b| && Count(b, n, l) >= 3
    ensures Load(p, b, n, l) >= 3 * p[n - 1]
  {
    LoadAtLeast(p, b, 0, n, l);
    Three(Count(b, n, l), p[n - 1]);
  }

  lemma AtLeastOnce(c: int, x: nat)
    requires c >= 1
    ensures c * x >= x
  {
  }

  // A leading job of a list and another one.
  lemma LeadingPair(p: seq<nat>, b: seq<nat>, lead: nat, n: nat, l: nat)
    requires Descending(p) && 0 < lead <= n <= |p| && n <= |b|
    requires Count(b, lead, l) == 1 && Count(b, n, l) >= 2
    ensures Load(p, b, n, l) >= p[lead - 1] + p[n - 1]
  {
    LoadAtLeast(p, b, 0, lead, l);
    LoadAtLeast(p, b, lead, n, l);
    AtLeastOnce(Count(b, n, l) - 1, p[n - 1]);
  }

  lemma TwoLeading(p: seq<nat>, b: seq<nat>, lead: nat, n: nat, l: nat)
    requires Descending(p) && 0 < lead <= n <= |p| && n <= |b| && Count(b, lead, l) >= 2
    ensures Load(p, b, n, l) >= p[lead - 1] + p[n - 1]
  {
    LoadAtLeast(p, b, 0, lead, l);
    LoadGrows(p, b, lead, n, l);
    AtLeastOnce(Count(b, lead, l) - 1, p[lead - 1]);
    Scale(Count(b, lead, l) - 1, p[lead - 1], p[lead - 1]);
  }

  // So if three jobs the size of the last one are too much for opt, there are
  // at most eight jobs, and the last one shares a list with a leading one.
  lemma OptSharesLists(p: seq<nat>, b: seq<nat>, opt: nat, n: nat)
    requires Descending(p) && |b| == |p| && Assignment(b) && Within(p, b, opt)
    requires 5 <= n <= |p| && 3 * p[n - 1] > opt
    ensures n <= 8 && p[8 - n] + p[n - 1] <= opt
  {
    var lead := if n <= 8 then 9 - n else 0;
    var l := CrowdedList(b, n, lead);
    LoadGrows(p, b, n, |p|, l);
    LoadGrows(p, b, lead, n, l);
    if Count(b, n, l) >= 3 {
      ThreeJobs(p, b, n, l);
    } else if Count(b, lead, l) == 1 {
      LeadingPair(p, b, lead, n, l);
    } else {
      TwoLeading(p, b, lead, n, l);
    }
  }

  // Positive jobs: an empty list is taken before a second job goes anywhere.
  lemma {:induction false} FirstFourApart(p: seq<nat>, a: seq<nat>, n: nat, l: nat)
    requires IsGreedy(p, a) && n <= |p| && n <= 4 && l < LISTS
    requires forall k :: 0 <= k < n ==> p[k] > 0
    ensures Count(a, n, l) <= 1
  {
    if n > 0 {
      FirstFourApart(p, a, n - 1, l);
      if a[n - 1] == l && Count(a, n - 1, l) == 1 {
        var free := FreeList(a, n - 1);
        EmptyListIsEmpty(p, a, n - 1, free);
        GreedyPicksLeast(p, a, n - 1, free);
        LoadedList(p, a, n - 1, l);
      }
    }
  }

  lemma FreeList(a: seq<nat>, n: nat) returns (l: nat)
    requires Assignment(a) && n <= |a| && n < 4
    ensures l < LISTS && Count(a, n, l) == 0
  {
    CountsAddUp(a, n);
    l :| l < LISTS && Count(a, n, l) == 0;
  }

  lemma {:induction false} EmptyListIsEmpty(p: seq<nat>, a: seq<nat>, n: nat, l: nat)
    requires n <= |a| && n <= |p| && Count(a, n, l) == 0
    ensures Load(p, a, n, l) == 0
  {
    if n > 0 { EmptyListIsEmpty(p, a, n - 1, l); }
  }

  lemma {:induction false} LoadedList(p: seq<nat>, a: seq<nat>, n: nat, l: nat)
    requires n <= |a| && n <= |p| && Count(a, n, l) > 0 && forall k :: 0 <= k < n ==> p[k] > 0
    ensures Load(p, a, n, l) > 0
  {
    if a[n - 1] != l { LoadedList(p, a, n - 1, l); }
  }

  // Four positive jobs start all four lists.
  lemma EveryListStarted(p: seq<nat>, a: seq<nat>, n: nat, l: nat)
    requires IsGreedy(p, a) && 4 <= n <= |p| && l < LISTS && forall k :: 0 <= k < n ==> p[k] > 0
    ensures Count(a, n, l) >= 1
  {
    CountsAddUp(a, 4);
    FirstFourApart(p, a, 4, 0);
    FirstFourApart(p, a, 4, 1);
    FirstFourApart(p, a, 4, 2);
    FirstFourApart(p, a, 4, 3);
    LoadGrows(p, a, 4, n, l);
  }

  lemma SparseList(a: seq<nat>, n: nat, m: nat) returns (l: nat)
    requires Assignment(a) && n <= |a| && m <= |a| && n + m <= 7
    ensures l < LISTS && Count(a, n, l) + Count(a, m, l) <= 1
  {
    CountsAddUp(a, n);
    CountsAddUp(a, m);
    l :| l < LISTS && Count(a, n, l) + Count(a, m, l) <= 1;
  }

  // Before job n is placed (five to eight jobs), greedy has a list with a
  // single job that is not among the first 8 - n.
  lemma LonelyList(p: seq<nat>, a: seq<nat>, n: nat) returns (l: nat)
    requires IsGreedy(p, a) && 5 <= n <= 8 && n <= |p| && forall k :: 0 <= k < n ==> p[k] > 0
    ensures l < LISTS && Count(a, n - 1, l) == 1 && Count(a, 8 - n, l) == 0
  {
    l := SparseList(a, n - 1, 8 - n);
    EveryListStarted(p, a, n - 1, l);
  }

  // A single job past the first m weighs at most job m.
  lemma {:induction false} SingleJob(p: seq<nat>, a: seq<nat>, m: nat, n: nat, l: nat)
    requires Descending(p) && m < |p| && m <= n <= |p| && n <= |a|
    requires Count(a, m, l) == 0 && Count(a, n, l) <= 1
    ensures Load(p, a, n, l) <= p[m]
  {
    if m == n {
      EmptyListIsEmpty(p, a, n, l);
    } else if a[n - 1] == l {
      EmptyListIsEmpty(p, a, n - 1, l);
    } else {
      SingleJob(p, a, m, n - 1, l);
    }
  }

  // The job that raised a list to its final height leaves it within 5/4.
  lemma DescendingAfter(p: seq<nat>, a: seq<nat>, b: seq<nat>, opt: nat, k: nat)
    requires IsGreedy(p, a) && Descending(p) && k < |p|
    requires |b| == |p| && Assignment(b) && Within(p, b, opt)
    ensures 4 * (Load(p, a, k, a[k]) + p[k]) <= 5 * opt
  {
    JobFits(p, b, opt, k);
    if 3 * p[k] <= opt {
      GreedyAfter(p, a, b, opt, k);
    } else if k < 4 {
      var free := FreeList(a, k);
      EmptyListIsEmpty(p, a, k, free);
      GreedyPicksLeast(p, a, k, free);
    } else {
      OptSharesLists(p, b, opt, k + 1);
      var l := LonelyList(p, a, k + 1);
      SingleJob(p, a, 7 - k, k, l);
      GreedyPicksLeast(p, a, k, l);
    }
  }

  // In descending order, greedy is within 5/4 of every assignment.
  lemma GreedyWithin5Over4(p: seq<nat>, a: seq<nat>, b: seq<nat>, opt: nat, l: nat)
    requires IsGreedy(p, a) && Descending(p) && l < LISTS
    requires |b| == |p| && Assignment(b) && Within(p, b, opt)
    ensures 4 * Load(p, a, |p|, l) <= 5 * opt
  {
    if Load(p, a, |p|, l) > 0 {
      var k := LastJob(p, a, |p|, l);
      DescendingAfter(p, a, b, opt, k);
    }
  }
}
