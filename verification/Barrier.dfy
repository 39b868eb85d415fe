/**
 * The sense-reversing barrier (`spinlock_barrier::arrive_and_wait`), for any
 * interleaving of the atomic accesses of exactly n threads that use it again
 * and again.
 */
module Barrier {
  // Where a thread is inside a call; my is the sense it loaded on entry.
  datatype Pc =
    | Outside
    | Loaded(my: bool)
    | Spinning(my: bool)
    | Resetting(my: bool)
    | Flipping(my: bool)

  // The shared variables, and for each thread where it is and how many calls
  // it has returned from.
  datatype State = State(k: nat, sense: bool, pc: seq<Pc>, left: seq<nat>)

  function Initial(n: nat): State {
    State(0, false, seq(n, _ => Outside), seq(n, _ => 0))
  }

  // The next atomic access of thread i.
  function Step(s: State, i: nat): State
    requires i < |s.pc| == |s.left|
  {
    match s.pc[i]
    case Outside => s.(pc := s.pc[i := Loaded(s.sense)])
    case Loaded(my) =>
      if s.k + 1 == |s.pc| then s.(k := s.k + 1, pc := s.pc[i := Resetting(my)])
      else s.(k := s.k + 1, pc := s.pc[i := Spinning(my)])
    case Resetting(my) => s.(k := 0, pc := s.pc[i := Flipping(my)])
    case Flipping(my) => s.(sense := !my, pc := s.pc[i := Outside], left := s.left[i := s.left[i] + 1])
    case Spinning(my) =>
      if s.sense == my then s else s.(pc := s.pc[i := Outside], left := s.left[i := s.left[i] + 1])
  }

  // Thread i can do something other than look at sense in vain.
  predicate CanMove(s: State, i: nat)
    requires i < |s.pc|
  {
    !(s.pc[i].Spinning? && s.sense == s.pc[i].my)
  }

  // A run names the thread that moves at each step; looks in vain are left out.
  ghost predicate IsRun(n: nat, run: seq<nat>) {
    run == [] ||
    (var r := run[..|run| - 1];
     IsRun(n, r) && run[|run| - 1] < n && CanMove(After(n, r), run[|run| - 1]))
  }

  function After(n: nat, run: seq<nat>): (s: State)
    ensures |s.pc| == |s.left| == n
  {
    if run == [] then Initial(n)
    else
      var i := run[|run| - 1];
      var s := After(n, run[..|run| - 1]);
      if i < n then Step(s, i) else s
  }

  // ---------------------------------------------------------------------
  // The invariant.
  // ---------------------------------------------------------------------

  // Thread i has arrived in the current epoch.
  predicate HasArrived(p: Pc, sense: bool) {
    (p.Spinning? && p.my == sense) || p.Resetting? || p.Flipping?
  }

  function Arrived(pc: seq<Pc>, sense: bool, n: nat): (c: nat)
    requires n <= |pc|
    ensures c <= n
  {
    if n == 0 then 0 else Arrived(pc, sense, n - 1) + (if HasArrived(pc[n - 1], sense) then 1 else 0)
  }

  // After epoch flips: a thread has been through all of them, or was released
  // by the last one and has not noticed yet.
  predicate ThreadOk(p: Pc, left: nat, sense: bool, epoch: nat) {
    || (left == epoch && (p.Outside? || p.my == sense))
    || (left + 1 == epoch && p == Spinning(!sense))
  }

  // The last thread to arrive, on its way to releasing the others.
  predicate Turning(p: Pc) {
    p.Resetting? || p.Flipping?
  }

  // last is the thread that arrived last, or -1 while some are still to come.
  ghost predicate Inv(s: State, epoch: nat, last: int) {
    && |s.pc| == |s.left| > 0 && -1 <= last < |s.pc|
    && s.sense == (epoch % 2 == 1)
    && (forall i :: 0 <= i < |s.pc| ==> ThreadOk(s.pc[i], s.left[i], s.sense, epoch))
    && (forall i :: 0 <= i < |s.pc| ==> (Turning(s.pc[i]) <==> i == last))
    && (if last == -1 then s.k == Arrived(s.pc, s.sense, |s.pc|) < |s.pc|
        else Arrived(s.pc, s.sense, |s.pc|) == |s.pc| && s.k == if s.pc[last].Flipping? then 0 else |s.pc|)
  }

  lemma {:induction false} ArrivedUpdate(pc: seq<Pc>, sense: bool, n: nat, i: nat, p: Pc)
    requires i < n <= |pc|
    ensures Arrived(pc[i := p], sense, n) ==
            Arrived(pc, sense, n) - (if HasArrived(pc[i], sense) then 1 else 0) + (if HasArrived(p, sense) then 1 else 0)
  {
    if i < n - 1 {
      ArrivedUpdate(pc, sense, n - 1, i, p);
    } else {
      ArrivedSame(pc, pc[i := p], sense, n - 1);
    }
  }

  lemma {:induction false} ArrivedSame(pc: seq<Pc>, pc': seq<Pc>, sense: bool, n: nat)
    requires n <= |pc| && n <= |pc'| && forall i :: 0 <= i < n ==> pc[i] == pc'[i]
    ensures Arrived(pc, sense, n) == Arrived(pc', sense, n)
  {
    if n > 0 { ArrivedSame(pc, pc', sense, n - 1); }
  }

  lemma {:induction false} AllArrived(pc: seq<Pc>, sense: bool, n: nat, i: nat)
    requires i < n <= |pc| && Arrived(pc, sense, n) == n
    ensures HasArrived(pc[i], sense)
  {
    if i < n - 1 { AllArrived(pc, sense, n - 1, i); }
  }

  lemma {:induction false} NoneArrived(pc: seq<Pc>, sense: bool, n: nat)
    requires n <= |pc| && forall i :: 0 <= i < n ==> !HasArrived(pc[i], sense)
    ensures Arrived(pc, sense, n) == 0
  {
    if n > 0 { NoneArrived(pc, sense, n - 1); }
  }

  lemma {:induction false} SomeMissing(pc: seq<Pc>, sense: bool, n: nat) returns (i: nat)
    requires n <= |pc| && Arrived(pc, sense, n) < n
    ensures i < n && !HasArrived(pc[i], sense)
  {
    if HasArrived(pc[n - 1], sense) { i := SomeMissing(pc, sense, n - 1); } else { i := n - 1; }
  }

  lemma EntryKeepsInv(s: State, epoch: nat, last: int, i: nat)
    requires Inv(s, epoch, last) && i < |s.pc| && (s.pc[i].Outside? || s.pc[i].Loaded?)
    ensures Inv(Step(s, i), epoch, if s.pc[i].Loaded? && s.k + 1 == |s.pc| then i else -1)
  {
    if last != -1 { AllArrived(s.pc, s.sense, |s.pc|, i); }
    ArrivedUpdate(s.pc, s.sense, |s.pc|, i, Step(s, i).pc[i]);
  }

  lemma ReleaseKeepsInv(s: State, epoch: nat, i: nat)
    requires Inv(s, epoch, i) && s.pc[i].Flipping?
    ensures Inv(Step(s, i), epoch + 1, -1)
  {
    var s' := Step(s, i);
    forall j | 0 <= j < |s.pc| ensures ThreadOk(s'.pc[j], s'.left[j], s'.sense, epoch + 1) && !HasArrived(s'.pc[j], s'.sense) {
      AllArrived(s.pc, s.sense, |s.pc|, j);
    }
    NoneArrived(s'.pc, s'.sense, |s'.pc|);
  }

  lemma StepKeepsInv(s: State, epoch: nat, last: int, i: nat) returns (epoch': nat, last': int)
    requires Inv(s, epoch, last) && i < |s.pc| && CanMove(s, i)
    ensures Inv(Step(s, i), epoch', last')
  {
    epoch', last' := epoch, last;
    match s.pc[i] {
      case Outside =>
        last' := -1;
        EntryKeepsInv(s, epoch, last, i);
      case Loaded(my) =>
        last' := if s.k + 1 == |s.pc| then i else -1;
        EntryKeepsInv(s, epoch, last, i);
      case Resetting(my) =>
        ArrivedUpdate(s.pc, s.sense, |s.pc|, i, Flipping(my));
      case Flipping(my) =>
        epoch', last' := epoch + 1, -1;
        ReleaseKeepsInv(s, epoch, i);
      case Spinning(my) =>
        ArrivedUpdate(s.pc, s.sense, |s.pc|, i, Outside);
    }
  }

  lemma InitialInv(n: nat)
    requires n > 0
    ensures Inv(Initial(n), 0, -1)
  {
    NoneArrived(Initial(n).pc, false, n);
  }

  lemma {:induction false} RunKeepsInv(n: nat, run: seq<nat>) returns (epoch: nat, last: int)
    requires n > 0 && IsRun(n, run)
    ensures Inv(After(n, run), epoch, last)
  {
    if run == [] {
      InitialInv(n);
      epoch, last := 0, -1;
    } else {
      var r := run[..|run| - 1];
      epoch, last := RunKeepsInv(n, r);
      epoch, last := StepKeepsInv(After(n, r), epoch, last, run[|run| - 1]);
    }
  }

  // ---------------------------------------------------------------------
  // What a barrier promises.
  // ---------------------------------------------------------------------

  // How many calls thread i has arrived in.
  function Arrivals(s: State, i: nat): nat
    requires i < |s.pc| == |s.left|
  {
    s.left[i] + (if s.pc[i].Spinning? || Turning(s.pc[i]) then 1 else 0)
  }

  // No thread returns from call r before every thread has arrived in call r,
  // and no thread is ever more than one call ahead of another.
  lemma NobodyLeavesEarly(n: nat, run: seq<nat>, i: nat, j: nat)
    requires IsRun(n, run) && i < n && j < n
    ensures var s := After(n, run); s.left[i] <= Arrivals(s, j) && s.left[i] <= s.left[j] + 1
  {
    var epoch, last := RunKeepsInv(n, run);
    var s := After(n, run);
    assert ThreadOk(s.pc[i], s.left[i], s.sense, epoch) && ThreadOk(s.pc[j], s.left[j], s.sense, epoch);
  }

  // Some thread can always move.
  lemma SomeoneCanMove(n: nat, run: seq<nat>) returns (i: nat)
    requires n > 0 && IsRun(n, run)
    ensures i < n && CanMove(After(n, run), i)
  {
    var epoch, last := RunKeepsInv(n, run);
    var s := After(n, run);
    if last >= 0 { i := last; } else { i := SomeMissing(s.pc, s.sense, n); }
  }

  // Moves a thread has made, at most.
  function Stage(p: Pc): nat {
    match p
    case Outside => 0
    case Loaded(_) => 1
    case Spinning(_) => 2
    case Resetting(_) => 2
    case Flipping(_) => 3
  }

  function Effort(s: State, n: nat): nat
    requires n <= |s.pc| == |s.left|
  {
    if n == 0 then 0 else Effort(s, n - 1) + 4 * s.left[n - 1] + Stage(s.pc[n - 1])
  }

  lemma {:induction false} EffortGrows(s: State, s': State, i: nat, n: nat)
    requires n <= |s.pc| == |s.left| == |s'.pc| == |s'.left| && i < |s.pc|
    requires forall j :: 0 <= j < |s.pc| && j != i ==> s.pc[j] == s'.pc[j] && s.left[j] == s'.left[j]
    requires 4 * s.left[i] + Stage(s.pc[i]) < 4 * s'.left[i] + Stage(s'.pc[i])
    ensures Effort(s, n) + (if i < n then 1 else 0) <= Effort(s', n)
  {
    if n > 0 { EffortGrows(s, s', i, n - 1); }
  }

  lemma {:induction false} RunIsEffort(n: nat, run: seq<nat>)
    requires IsRun(n, run)
    ensures |run| <= Effort(After(n, run), n)
  {
    if run != [] {
      var r := run[..|run| - 1];
      RunIsEffort(n, r);
      EffortGrows(After(n, r), After(n, run), run[|run| - 1], n);
    }
  }

  lemma OneMore(n: nat, x: nat)
    ensures (n + 1) * x == n * x + x
  {
  }

  lemma {:induction false} EffortBound(s: State, r: nat, n: nat)
    requires n <= |s.pc| == |s.left| && forall i :: 0 <= i < n ==> s.left[i] <= r
    ensures Effort(s, n) <= n * (4 * r + 3)
  {
    if n > 0 {
      EffortBound(s, r, n - 1);
      OneMore(n - 1, 4 * r + 3);
    }
  }

  // However the threads take turns, moves are never wasted: after more than
  // n * (4r + 3) of them every thread has returned from r calls.
  lemma MovesMakeRounds(n: nat, run: seq<nat>, r: nat, j: nat)
    requires IsRun(n, run) && j < n && |run| > n * (4 * r + 3)
    ensures After(n, run).left[j] >= r
  {
    var s := After(n, run);
    RunIsEffort(n, run);
    if forall i :: 0 <= i < n ==> s.left[i] <= r { EffortBound(s, r, n); }
    var i :| 0 <= i < n && s.left[i] > r;
    NobodyLeavesEarly(n, run, i, j);
  }

  // ---------------------------------------------------------------------
  // The method itself.
  // ---------------------------------------------------------------------

  lemma OneMove(n: nat, run: seq<nat>, i: nat)
    requires IsRun(n, run) && i < n && CanMove(After(n, run), i)
    ensures IsRun(n, run + [i]) && After(n, run + [i]) == Step(After(n, run), i)
  {
    assert (run + [i])[..|run|] == run;
  }

  // A thread that looks in vain has somebody to wait for.
  lemma WhyWaiting(n: nat, run: seq<nat>, i: nat) returns (j: nat)
    requires IsRun(n, run) && i < n && After(n, run).pc[i] == Spinning(After(n, run).sense)
    ensures j < n && (Arrivals(After(n, run), j) <= After(n, run).left[i] || Turning(After(n, run).pc[j]))
  {
    var epoch, last := RunKeepsInv(n, run);
    var s := After(n, run);
    if last >= 0 { j := last; } else { j := SomeMissing(s.pc, s.sense, n); }
    assert ThreadOk(s.pc[i], s.left[i], s.sense, epoch) && ThreadOk(s.pc[j], s.left[j], s.sense, epoch);
  }

  // The two shared variables. Where the threads are, and the moves made so
  // far, is kept beside them.
  class SpinlockBarrier {
    const n: nat
    var k: nat
    var sense: bool
    var pc: seq<Pc>
    var left: seq<nat>
    ghost var run: seq<nat>

    ghost predicate Valid()
      reads this
    {
      IsRun(n, run) && State(k, sense, pc, left) == After(n, run)
    }

    constructor (n: nat)
      ensures Valid() && this.n == n && run == []
    {
      this.n, k, sense := n, 0, false;
      pc, left, run := seq(n, _ => Outside), seq(n, _ => 0), [];
    }

    // Another thread's access, wherever it is.
    method Move(j: nat)
      requires Valid() && j < n && CanMove(State(k, sense, pc, left), j)
      modifies this
      ensures Valid() && run == old(run) + [j]
      ensures forall i :: 0 <= i < n && i != j ==> pc[i] == old(pc[i]) && left[i] == old(left[i])
    {
      var s := Step(State(k, sense, pc, left), j);
      OneMove(n, run, j);
      k, sense, pc, left, run := s.k, s.sense, s.pc, s.left, run + [j];
    }

    // What the other threads do while thread i does nothing.
    method Others(i: nat, moves: seq<nat>)
      requires Valid() && i < n
      modifies this
      ensures Valid() && old(run) <= run && pc[i] == old(pc[i]) && left[i] == old(left[i])
    {
      var m := 0;
      while m < |moves|
        invariant Valid() && old(run) <= run && pc[i] == old(pc[i]) && left[i] == old(left[i])
      {
        var j := moves[m];
        if j < n && j != i && CanMove(State(k, sense, pc, left), j) { Move(j); }
        m := m + 1;
      }
    }

    // The five kinds of access a call is made of.

    method Load(i: nat) returns (mySense: bool)
      requires Valid() && i < n && pc[i] == Outside
      modifies this
      ensures Valid() && old(run) <= run && pc[i] == Loaded(mySense) && left[i] == old(left[i])
    {
      OneMove(n, run, i);
      mySense := sense;
      pc, run := pc[i := Loaded(mySense)], run + [i];
    }

    method CountIn(i: nat, mySense: bool) returns (last: bool)
      requires Valid() && i < n && pc[i] == Loaded(mySense)
      modifies this
      ensures Valid() && old(run) <= run && left[i] == old(left[i])
      ensures pc[i] == if last then Resetting(mySense) else Spinning(mySense)
    {
      OneMove(n, run, i);
      k := k + 1;
      last := k == n;
      pc, run := pc[i := if last then Resetting(mySense) else Spinning(mySense)], run + [i];
    }

    method Reset(i: nat, mySense: bool)
      requires Valid() && i < n && pc[i] == Resetting(mySense)
      modifies this
      ensures Valid() && old(run) <= run && pc[i] == Flipping(mySense) && left[i] == old(left[i])
    {
      OneMove(n, run, i);
      k := 0;
      pc, run := pc[i := Flipping(mySense)], run + [i];
    }

    method Flip(i: nat, mySense: bool)
      requires Valid() && i < n && pc[i] == Flipping(mySense)
      modifies this
      ensures Valid() && old(run) <= run && pc[i] == Outside && left[i] == old(left[i]) + 1
    {
      OneMove(n, run, i);
      sense := !mySense;
      pc, left, run := pc[i := Outside], left[i := left[i] + 1], run + [i];
    }

    method Look(i: nat, mySense: bool) returns (released: bool)
      requires Valid() && i < n && pc[i] == Spinning(mySense)
      modifies this
      ensures Valid() && old(run) <= run
      ensures if released then pc[i] == Outside && left[i] == old(left[i]) + 1
              else pc[i] == Spinning(mySense) && sense == mySense && left[i] == old(left[i])
    {
      released := sense != mySense;
      if released {
        OneMove(n, run, i);
        pc, left, run := pc[i := Outside], left[i := left[i] + 1], run + [i];
      }
    }

    // A call by thread i. pauses says what the others do before each of its
    // accesses; when it is used up the thread is still inside.
    method Call(i: nat, pauses: seq<seq<nat>>) returns (done: bool)
      requires Valid() && i < n && pc[i] == Outside
      modifies this
      ensures Valid() && old(run) <= run
      ensures done <==> pc[i] == Outside && left[i] == old(left[i]) + 1
      ensures left[i] == if done then old(left[i]) + 1 else old(left[i])
      ensures |pauses| >= 4 && !done ==> pc[i] == Spinning(sense)
    {
      hide IsRun, After;
      done := false;
      if |pauses| == 0 { return; }
      Others(i, pauses[0]);
      var mySense := Load(i);
      if |pauses| == 1 { return; }
      Others(i, pauses[1]);
      var last := CountIn(i, mySense);
      if last {
        if |pauses| == 2 { return; }
        Others(i, pauses[2]);
        Reset(i, mySense);
        if |pauses| == 3 { return; }
        Others(i, pauses[3]);
        Flip(i, mySense);
        done := true;
      } else {
        var t := 2;
        while t < |pauses| && !done
          invariant Valid() && old(run) <= run
          invariant if done then pc[i] == Outside && left[i] == old(left[i]) + 1 else pc[i] == Spinning(mySense) && left[i] == old(left[i])
          invariant t > 2 && !done ==> sense == mySense
        {
          Others(i, pauses[t]);
          done := Look(i, mySense);
          t := t + 1;
        }
      }
    }

    // The call returns only after every thread has arrived in this round, and
    // by then no thread is more than one round behind. With four accesses or more
    // it is still inside only if some thread has not arrived, or the last to
    // arrive is on its way to release the others.
    method ArriveAndWait(i: nat, pauses: seq<seq<nat>>) returns (done: bool)
      requires Valid() && i < n && pc[i] == Outside
      modifies this
      ensures Valid() && old(run) <= run
      ensures left[i] == if done then old(left[i]) + 1 else old(left[i])
      ensures done ==> forall j :: 0 <= j < n ==>
                left[i] <= Arrivals(State(k, sense, pc, left), j) && left[i] <= left[j] + 1
      ensures |pauses| >= 4 && !done ==>
                exists j :: 0 <= j < n && (Arrivals(State(k, sense, pc, left), j) <= left[i] || Turning(pc[j]))
    {
      done := Call(i, pauses);
      if |pauses| >= 4 && !done {
        ghost var missing := WhyWaiting(n, run, i);
      }
      forall j | 0 <= j < n
        ensures left[i] <= Arrivals(State(k, sense, pc, left), j) && left[i] <= left[j] + 1
      {
        NobodyLeavesEarly(n, run, i, j);
      }
    }
  }
}
