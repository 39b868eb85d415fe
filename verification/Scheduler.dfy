/**
 * The task scheduler of `schedule.py`: tasks wait in a queue for the node that
 * is free first, and a task is placed only if its apply window overlaps no
 * other; when nothing fits, a dummy task lets a little time pass.
 */
module Scheduler {
  datatype Task = Task(id: nat, exe: real)

  const APPLY_TIME := 2.0
  const DUMMY := Task(65535, 0.1)

  predicate IsDummy(t: Task) {
    t.id == 65535
  }

  // ---------------------------------------------------------------------
  // Windows.
  // ---------------------------------------------------------------------

  type Window = (real, real)

  predicate Overlap(a: Window, b: Window) {
    (if a.0 > b.0 then a.0 else b.0) < (if a.1 < b.1 then a.1 else b.1)
  }

  class RangeSet {
    var ranges: seq<Window>

    constructor ()
      ensures ranges == []
    {
      ranges := [];
    }

    // An inverted range is refused.
    method AddRange(minVal: real, maxVal: real) returns (ok: bool)
      modifies this
      ensures ok == (minVal <= maxVal)
      ensures ranges == if ok then old(ranges) + [(minVal, maxVal)] else old(ranges)
    {
      ok := minVal <= maxVal;
      if ok { ranges := ranges + [(minVal, maxVal)]; }
    }

    method HasIntersection(minVal: real, maxVal: real) returns (hit: bool)
      ensures hit <==> exists r :: r in ranges && Overlap((minVal, maxVal), r)
    {
      var k := 0;
      while k < |ranges|
        invariant 0 <= k <= |ranges|
        invariant forall j :: 0 <= j < k ==> !Overlap((minVal, maxVal), ranges[j])
      {
        if Overlap((minVal, maxVal), ranges[k]) { return true; }
        k := k + 1;
      }
      return false;
    }
  }

  // ---------------------------------------------------------------------
  // Timelines.
  // ---------------------------------------------------------------------

  function Length(t: Task): real {
    if IsDummy(t) then t.exe else t.exe + 2.0
  }

  // When a node is done with the first n tasks of its list.
  function Clock(list: seq<Task>, n: nat): real
    requires n <= |list|
  {
    if n == 0 then 0.0 else Clock(list, n - 1) + Length(list[n - 1])
  }

  // When task k of a list applies its results.
  function ApplyWindow(list: seq<Task>, k: nat): Window
    requires k < |list|
  {
    (Clock(list, k) + list[k].exe, Clock(list, k) + list[k].exe + 2.0)
  }

  lemma {:induction false} ClockPrefix(list: seq<Task>, t: Task, n: nat)
    requires n <= |list|
    ensures Clock(list + [t], n) == Clock(list, n)
  {
    if n > 0 { ClockPrefix(list, t, n - 1); }
  }

  // The node that is free first, the first among equals.
  function ArgMin(time: seq<real>, n: nat): (m: nat)
    requires 1 <= n <= |time|
    ensures m < n && forall w :: 0 <= w < n ==> time[m] <= time[w]
    ensures forall w :: 0 <= w < m ==> time[m] < time[w]
  {
    if n == 1 then 0
    else
      var m := ArgMin(time, n - 1);
      if time[n - 1] < time[m] then n - 1 else m
  }

  // A task placed on its own account: not a dummy and past the shared start.
  ghost predicate Own(work: seq<seq<Task>>, shared: nat, w: int, k: int) {
    0 <= w < |work| && shared <= k < |work[w]| && !IsDummy(work[w][k])
  }

  // Each node's time is the end of its list.
  ghost predicate Timed(work: seq<seq<Task>>, time: seq<real>, shared: nat) {
    && |work| == |time| > 0
    && forall w :: 0 <= w < |work| ==> |work[w]| >= shared && time[w] == Clock(work[w], |work[w]|)
  }

  // The window of every task is on record.
  ghost predicate Recorded(work: seq<seq<Task>>, ranges: seq<Window>, shared: nat) {
    forall w, k :: Own(work, shared, w, k) ==> ApplyWindow(work[w], k) in ranges
  }

  // No two windows overlap, on one node or on two.
  ghost predicate Apart(work: seq<seq<Task>>, shared: nat) {
    forall w, k, v, l :: Own(work, shared, w, k) && Own(work, shared, v, l) && (w != v || k != l) ==>
      !Overlap(ApplyWindow(work[w], k), ApplyWindow(work[v], l))
  }

  // No node is ahead of another by more than the longest task and its apply.
  ghost predicate Level(time: seq<real>, longest: real) {
    forall w, v :: 0 <= w < |time| && 0 <= v < |time| ==> time[w] - time[v] <= longest + 2.0
  }

  // What holds of a schedule at every moment.
  ghost predicate Consistent(work: seq<seq<Task>>, time: seq<real>, ranges: seq<Window>, shared: nat, longest: real) {
    Timed(work, time, shared) && Recorded(work, ranges, shared) && Apart(work, shared) && Level(time, longest)
  }

  function Placed(work: seq<seq<Task>>, w: nat, t: Task): seq<seq<Task>>
    requires w < |work|
  {
    work[w := work[w] + [t]]
  }

  // Appending to a list moves nothing that is already on it.
  lemma PlacedKeeps(work: seq<seq<Task>>, shared: nat, w: nat, t: Task, v: nat, k: nat)
    requires w < |work| && v < |work| && k < |work[v]|
    ensures k < |Placed(work, w, t)[v]| && Placed(work, w, t)[v][k] == work[v][k]
    ensures ApplyWindow(Placed(work, w, t)[v], k) == ApplyWindow(work[v], k)
  {
    if v == w { ClockPrefix(work[w], t, k); }
  }

  lemma OwnPlaced(work: seq<seq<Task>>, shared: nat, w: nat, t: Task, v: int, k: int)
    requires w < |work| && |work[w]| >= shared
    ensures Own(Placed(work, w, t), shared, v, k) <==> Own(work, shared, v, k) || (v == w && k == |work[w]| && !IsDummy(t))
  {
  }

  // The window of the task just placed.
  lemma NewWindow(work: seq<seq<Task>>, w: nat, t: Task)
    requires w < |work|
    ensures var k := |work[w]|;
            ApplyWindow(Placed(work, w, t)[w], k) == (Clock(work[w], k) + t.exe, Clock(work[w], k) + t.exe + APPLY_TIME)
    ensures Clock(Placed(work, w, t)[w], |work[w]| + 1) == Clock(work[w], |work[w]|) + Length(t)
  {
    ClockPrefix(work[w], t, |work[w]|);
  }

  // The windows of the old and the new tasks after a placement.
  lemma WindowsPlaced(work: seq<seq<Task>>, time: seq<real>, shared: nat, m: nat, t: Task, v: nat, k: nat)
    requires Timed(work, time, shared) && m < |work|
    requires Own(Placed(work, m, t), shared, v, k)
    ensures if v == m && k == |work[m]|
            then ApplyWindow(Placed(work, m, t)[v], k) == (time[m] + t.exe, time[m] + t.exe + APPLY_TIME)
            else Own(work, shared, v, k) && ApplyWindow(Placed(work, m, t)[v], k) == ApplyWindow(work[v], k)
  {
    OwnPlaced(work, shared, m, t, v, k);
    if v == m && k == |work[m]| { NewWindow(work, m, t); } else { PlacedKeeps(work, shared, m, t, v, k); }
  }

  // Placing a task whose window is free keeps the windows apart.
  lemma PlaceKeepsApart(work: seq<seq<Task>>, time: seq<real>, ranges: seq<Window>, shared: nat, m: nat, t: Task)
    requires Timed(work, time, shared) && Recorded(work, ranges, shared) && Apart(work, shared) && m < |work|
    requires IsDummy(t) || forall r :: r in ranges ==> !Overlap((time[m] + t.exe, time[m] + t.exe + APPLY_TIME), r)
    ensures Apart(Placed(work, m, t), shared)
  {
    var work' := Placed(work, m, t);
    forall w, k, v, l | Own(work', shared, w, k) && Own(work', shared, v, l) && (w != v || k != l)
      ensures !Overlap(ApplyWindow(work'[w], k), ApplyWindow(work'[v], l))
    {
      WindowsPlaced(work, time, shared, m, t, w, k);
      WindowsPlaced(work, time, shared, m, t, v, l);
      OwnPlaced(work, shared, m, t, w, k);
      OwnPlaced(work, shared, m, t, v, l);
    }
  }

  lemma PlaceKeepsRecorded(work: seq<seq<Task>>, time: seq<real>, ranges: seq<Window>, shared: nat, m: nat, t: Task)
    requires Timed(work, time, shared) && Recorded(work, ranges, shared) && m < |work|
    ensures Recorded(Placed(work, m, t), ranges + [(time[m] + t.exe, time[m] + t.exe + APPLY_TIME)], shared)
    ensures IsDummy(t) ==> Recorded(Placed(work, m, t), ranges, shared)
  {
    var work' := Placed(work, m, t);
    var win := (time[m] + t.exe, time[m] + t.exe + APPLY_TIME);
    forall w, k | Own(work', shared, w, k)
      ensures ApplyWindow(work'[w], k) in ranges + [win] && (IsDummy(t) ==> ApplyWindow(work'[w], k) in ranges)
    {
      WindowsPlaced(work, time, shared, m, t, w, k);
      OwnPlaced(work, shared, m, t, w, k);
    }
  }

  lemma PlaceKeepsTimed(work: seq<seq<Task>>, time: seq<real>, shared: nat, m: nat, t: Task)
    requires Timed(work, time, shared) && m < |work|
    ensures Timed(Placed(work, m, t), time[m := time[m] + Length(t)], shared)
  {
    NewWindow(work, m, t);
  }

  lemma PlaceKeepsLevel(time: seq<real>, m: nat, d: real, longest: real)
    requires Level(time, longest) && m < |time| && 0.0 <= d <= longest + APPLY_TIME
    requires forall w :: 0 <= w < |time| ==> time[m] <= time[w]
    ensures Level(time[m := time[m] + d], longest)
  {
  }

  // Placing a dummy, or a task whose window is free, on the first free node.
  lemma PlaceKeepsConsistent(work: seq<seq<Task>>, time: seq<real>, ranges: seq<Window>, shared: nat, longest: real, m: nat, t: Task)
    requires Consistent(work, time, ranges, shared, longest) && 0.0 < t.exe <= longest && longest >= DUMMY.exe
    requires m == ArgMin(time, |time|)
    requires IsDummy(t) || forall r :: r in ranges ==> !Overlap((time[m] + t.exe, time[m] + t.exe + APPLY_TIME), r)
    ensures var ranges' := if IsDummy(t) then ranges else ranges + [(time[m] + t.exe, time[m] + t.exe + APPLY_TIME)];
            Consistent(Placed(work, m, t), time[m := time[m] + Length(t)], ranges', shared, longest)
  {
    PlaceKeepsTimed(work, time, shared, m, t);
    PlaceKeepsRecorded(work, time, ranges, shared, m, t);
    PlaceKeepsApart(work, time, ranges, shared, m, t);
    PlaceKeepsLevel(time, m, Length(t), longest);
  }

  // ---------------------------------------------------------------------
  // What is placed and what is waiting.
  // ---------------------------------------------------------------------

  function Is(t: Task, x: Task): nat {
    if t == x then 1 else 0
  }

  // How often a task is on a list.
  function Times(list: seq<Task>, x: Task): nat {
    if list == [] then 0 else Times(list[..|list| - 1], x) + Is(list[|list| - 1], x)
  }

  lemma TimesSnoc(list: seq<Task>, t: Task, x: Task)
    ensures Times(list + [t], x) == Times(list, x) + Is(t, x)
  {
    assert (list + [t])[..|list|] == list;
  }

  // How often a task is on the own parts of the first n nodes' lists.
  function OnNodes(work: seq<seq<Task>>, shared: nat, n: nat, x: Task): nat
    requires n <= |work| && forall w :: 0 <= w < |work| ==> shared <= |work[w]|
  {
    if n == 0 then 0 else OnNodes(work, shared, n - 1, x) + Times(work[n - 1][shared..], x)
  }

  lemma {:induction false} OnNodesPlaced(work: seq<seq<Task>>, shared: nat, m: nat, t: Task, n: nat, x: Task)
    requires n <= |work| && m < |work| && forall w :: 0 <= w < |work| ==> shared <= |work[w]|
    ensures OnNodes(Placed(work, m, t), shared, n, x) == OnNodes(work, shared, n, x) + (if m < n then Is(t, x) else 0)
  {
    if n > 0 {
      OnNodesPlaced(work, shared, m, t, n - 1, x);
      if n - 1 == m {
        TimesSnoc(work[m][shared..], t, x);
        assert Placed(work, m, t)[m][shared..] == work[m][shared..] + [t];
      }
    }
  }

  // ---------------------------------------------------------------------
  // Termination.
  // ---------------------------------------------------------------------

  // Tenths still to pass before a time reaches r.
  function Tenths(x: real, r: real): (n: nat)
    ensures n == 0 <==> x >= r
  {
    if x >= r then 0 else (10.0 * (r - x)).Floor + 1
  }

  function Quanta(time: seq<real>, r: real, n: nat): nat
    requires n <= |time|
  {
    if n == 0 then 0 else Quanta(time, r, n - 1) + Tenths(time[n - 1], r)
  }

  lemma TenthsFall(x: real, r: real)
    requires x < r
    ensures Tenths(x + DUMMY.exe, r) < Tenths(x, r)
  {
    assert 10.0 * (r - (x + 0.1)) == 10.0 * (r - x) - 1.0;
  }

  lemma {:induction false} QuantaFall(time: seq<real>, r: real, m: nat, n: nat)
    requires n <= |time| && m < |time| && time[m] < r
    ensures Quanta(time[m := time[m] + DUMMY.exe], r, n) + (if m < n then 1 else 0) <= Quanta(time, r, n)
  {
    if n > 0 {
      QuantaFall(time, r, m, n - 1);
      if n - 1 == m { TenthsFall(time[m], r); }
    }
  }

  // ---------------------------------------------------------------------
  // The loop.
  // ---------------------------------------------------------------------

  // Every window ends by r.
  ghost predicate Until(ranges: seq<Window>, r: real) {
    forall w :: w in ranges ==> w.1 <= r
  }

  function LatestEnd(ranges: seq<Window>): (r: real)
    ensures Until(ranges, r)
  {
    if ranges == [] then 0.0
    else
      var r := LatestEnd(ranges[..|ranges| - 1]);
      var e := ranges[|ranges| - 1].1;
      assert forall w :: w in ranges ==> w in ranges[..|ranges| - 1] || w == ranges[|ranges| - 1];
      if e > r then e else r
  }

  // The state of a scheduling run.
  datatype Plan = Plan(work: seq<seq<Task>>, time: seq<real>)

  ghost predicate Sound(p: Plan, ranges: seq<Window>, shared: nat, longest: real) {
    Consistent(p.work, p.time, ranges, shared, longest)
  }

  // The plan with the task put on node m for a time d.
  function Put(p: Plan, m: nat, t: Task): Plan
    requires m < |p.work| && m < |p.time|
  {
    Plan(Placed(p.work, m, t), p.time[m := p.time[m] + Length(t)])
  }

  // ---------------------------------------------------------------------
  // The order in which tasks are placed.
  // ---------------------------------------------------------------------

  // When a task would apply its results on the node that is free first.
  function NextWindow(p: Plan, t: Task): Window
    requires |p.time| > 0
  {
    var start := p.time[ArgMin(p.time, |p.time|)];
    (start + t.exe, start + t.exe + 2.0)
  }

  ghost predicate Taken(ranges: seq<Window>, w: Window) {
    exists r :: r in ranges && Overlap(w, r)
  }

  // The plan after the tasks of a log, each put on the node free first.
  ghost function Replay(start: Plan, log: seq<Task>): (p: Plan)
    requires |start.work| == |start.time| > 0
    ensures |p.work| == |p.time| == |start.work|
  {
    if log == [] then start
    else
      var p := Replay(start, log[..|log| - 1]);
      Put(p, ArgMin(p.time, |p.time|), log[|log| - 1])
  }

  // The windows they take.
  ghost function Windows(start: Plan, log: seq<Task>): seq<Window>
    requires |start.work| == |start.time| > 0
  {
    if log == [] then []
    else
      var front, t := log[..|log| - 1], log[|log| - 1];
      Windows(start, front) + if IsDummy(t) then [] else [NextWindow(Replay(start, front), t)]
  }

  // The window of a task at the time of log entry n is taken.
  ghost predicate Refused(start: Plan, log: seq<Task>, n: nat, t: Task)
    requires |start.work| == |start.time| > 0 && n <= |log|
  {
    Taken(Windows(start, log[..n]), NextWindow(Replay(start, log[..n]), t))
  }

  // Entry n of a log: a task whose window was free, or a dummy at a time when
  // the window of every task still waiting was taken, of those that come later
  // in the log and of those that wait when it ends.
  ghost predicate InPlace(start: Plan, log: seq<Task>, n: nat, waiting: seq<Task>)
    requires |start.work| == |start.time| > 0 && n < |log|
  {
    if IsDummy(log[n]) then
      && log[n] == Task(65535, 0.1)
      && (forall l :: n < l < |log| && !IsDummy(log[l]) ==> Refused(start, log, n, log[l]))
      && (forall l :: 0 <= l < |waiting| && !IsDummy(waiting[l]) ==> Refused(start, log, n, waiting[l]))
    else
      !Refused(start, log, n, log[n])
  }

  ghost predicate InOrder(start: Plan, log: seq<Task>, waiting: seq<Task>)
    requires |start.work| == |start.time| > 0
  {
    forall n :: 0 <= n < |log| ==> InPlace(start, log, n, waiting)
  }

  // The log of a run, and the tasks that still wait.
  ghost predicate Logged(start: Plan, log: seq<Task>, tasks: seq<Task>, p: Plan, ranges: seq<Window>) {
    && |start.work| == |start.time| > 0
    && p == Replay(start, log) && ranges == Windows(start, log) && InOrder(start, log, tasks)
  }

  // All of some tasks would be refused now.
  ghost predicate AllRefused(tasks: seq<Task>, p: Plan, ranges: seq<Window>)
    requires |p.time| > 0
  {
    forall k :: 0 <= k < |tasks| ==> Taken(ranges, NextWindow(p, tasks[k]))
  }

  lemma {:induction false} RefusedPrefix(start: Plan, log: seq<Task>, t: Task, n: nat, x: Task)
    requires |start.work| == |start.time| > 0 && n <= |log|
    ensures Refused(start, log + [t], n, x) == Refused(start, log, n, x)
  {
    assert (log + [t])[..n] == log[..n];
  }

  // The first waiting task goes in.
  lemma {:induction false} LogPlaced(start: Plan, log: seq<Task>, tasks: seq<Task>, p: Plan, ranges: seq<Window>)
    requires Logged(start, log, tasks, p, ranges) && tasks != []
    requires if IsDummy(tasks[0]) then tasks[0] == Task(65535, 0.1) && AllRefused(tasks[1..], p, ranges)
             else !Taken(ranges, NextWindow(p, tasks[0]))
    ensures var t := tasks[0];
            Logged(start, log + [t], tasks[1..], Put(p, ArgMin(p.time, |p.time|), t),
                   ranges + if IsDummy(t) then [] else [NextWindow(p, t)])
  {
    var t, log' := tasks[0], log + [tasks[0]];
    assert log'[..|log|] == log && log[..|log|] == log;
    forall n, x | 0 <= n <= |log| ensures Refused(start, log', n, x) == Refused(start, log, n, x) {
      RefusedPrefix(start, log, t, n, x);
    }
    LogStaysInOrder(start, log, tasks);
  }

  lemma {:induction false} EntryStays(start: Plan, log: seq<Task>, tasks: seq<Task>, n: nat)
    requires |start.work| == |start.time| > 0 && tasks != [] && n < |log| && InPlace(start, log, n, tasks)
    ensures InPlace(start, log + [tasks[0]], n, tasks[1..])
  {
    var log' := log + [tasks[0]];
    assert log'[n] == log[n];
    forall x ensures Refused(start, log', n, x) == Refused(start, log, n, x) { RefusedPrefix(start, log, tasks[0], n, x); }
    hide Refused;
    if IsDummy(log[n]) {
      forall l | n < l < |log'| && !IsDummy(log'[l]) ensures Refused(start, log, n, log'[l]) {
        if l < |log| { assert log'[l] == log[l]; } else { assert log'[l] == tasks[0]; }
      }
      forall l | 0 <= l < |tasks[1..]| && !IsDummy(tasks[1..][l]) ensures Refused(start, log, n, tasks[1..][l]) {
        assert tasks[1..][l] == tasks[l + 1];
      }
    }
  }

  lemma {:induction false} NewEntry(start: Plan, log: seq<Task>, tasks: seq<Task>)
    requires |start.work| == |start.time| > 0 && tasks != []
    requires if IsDummy(tasks[0]) then tasks[0] == Task(65535, 0.1)
                                       && forall k :: 0 <= k < |tasks[1..]| ==> Refused(start, log, |log|, tasks[1..][k])
             else !Refused(start, log, |log|, tasks[0])
    ensures InPlace(start, log + [tasks[0]], |log|, tasks[1..])
  {
    var log' := log + [tasks[0]];
    forall x ensures Refused(start, log', |log|, x) == Refused(start, log, |log|, x) { RefusedPrefix(start, log, tasks[0], |log|, x); }
    hide Refused;
  }

  lemma {:induction false} LogStaysInOrder(start: Plan, log: seq<Task>, tasks: seq<Task>)
    requires |start.work| == |start.time| > 0 && InOrder(start, log, tasks) && tasks != []
    requires if IsDummy(tasks[0]) then tasks[0] == Task(65535, 0.1)
                                       && forall k :: 0 <= k < |tasks[1..]| ==> Refused(start, log, |log|, tasks[1..][k])
             else !Refused(start, log, |log|, tasks[0])
    ensures InOrder(start, log + [tasks[0]], tasks[1..])
  {
    hide InPlace, Refused;
    forall n | 0 <= n < |log| + 1 ensures InPlace(start, log + [tasks[0]], n, tasks[1..]) {
      if n < |log| { EntryStays(start, log, tasks, n); } else { NewEntry(start, log, tasks); }
    }
  }

  // A queue with the same tasks but for dummies.
  lemma {:induction false} SameWaiting(start: Plan, log: seq<Task>, tasks: seq<Task>, tasks': seq<Task>)
    requires |start.work| == |start.time| > 0 && InOrder(start, log, tasks)
    requires forall l :: 0 <= l < |tasks'| && !IsDummy(tasks'[l]) ==> tasks'[l] in tasks
    ensures InOrder(start, log, tasks')
  {
    hide Refused;
    forall n | 0 <= n < |log| ensures InPlace(start, log, n, tasks') {
      assert InPlace(start, log, n, tasks);
      forall l | 0 <= l < |tasks'| && IsDummy(log[n]) && !IsDummy(tasks'[l]) ensures Refused(start, log, n, tasks'[l]) {
        var k :| 0 <= k < |tasks| && tasks[k] == tasks'[l];
      }
    }
  }

  // Or goes to the end of the queue.
  lemma {:induction false} LogRotated(start: Plan, log: seq<Task>, tasks: seq<Task>, p: Plan, ranges: seq<Window>)
    requires Logged(start, log, tasks, p, ranges) && tasks != []
    ensures Logged(start, log, tasks[1..] + [tasks[0]], p, ranges)
  {
    SameWaiting(start, log, tasks, tasks[1..] + [tasks[0]]);
  }

  // A dummy joins the queue.
  lemma {:induction false} LogDummy(start: Plan, log: seq<Task>, tasks: seq<Task>, p: Plan, ranges: seq<Window>)
    requires Logged(start, log, tasks, p, ranges)
    ensures Logged(start, log, tasks + [DUMMY], p, ranges)
  {
    SameWaiting(start, log, tasks, tasks + [DUMMY]);
  }

  // ---------------------------------------------------------------------

  // One turn of the inner loop: the task goes to the node m that is free
  // first, unless its window is taken.
  method TryTask(task: Task, p: Plan, global: RangeSet, ghost shared: nat, ghost longest: real)
    returns (placed: bool, p': Plan)
    requires Sound(p, global.ranges, shared, longest) && 0.0 < task.exe <= longest && longest >= DUMMY.exe
    modifies global
    ensures Sound(p', global.ranges, shared, longest)
    ensures p' == if placed then Put(p, ArgMin(p.time, |p.time|), task) else p
    ensures placed <==> IsDummy(task) || !Taken(old(global.ranges), NextWindow(p, task))
    ensures global.ranges == old(global.ranges) + if placed && !IsDummy(task) then [NextWindow(p, task)] else []
    ensures !placed ==> exists r :: r in global.ranges && p.time[ArgMin(p.time, |p.time|)] < r.1
  {
    var m := ArgMin(p.time, |p.time|);
    var lower := p.time[m] + task.exe;
    var upper := lower + APPLY_TIME;
    placed, p' := true, p;
    if IsDummy(task) {
      PlaceKeepsConsistent(p.work, p.time, global.ranges, shared, longest, m, task);
      p' := Plan(p.work[m := p.work[m] + [task]], p.time[m := lower]);
    } else {
      var hit := global.HasIntersection(lower, upper);
      if hit {
        placed := false;
      } else {
        PlaceKeepsConsistent(p.work, p.time, global.ranges, shared, longest, m, task);
        var ok := global.AddRange(lower, upper);
        p' := Plan(p.work[m := p.work[m] + [task]], p.time[m := upper]);
      }
    }
  }

  // A queue of tasks that can be placed; only its last may be a dummy, and not
  // a lone one.
  ghost predicate Queue(tasks: seq<Task>, longest: real) {
    && (forall k :: 0 <= k < |tasks| ==> 0.0 < tasks[k].exe <= longest)
    && (forall k :: 0 <= k < |tasks| - 1 ==> !IsDummy(tasks[k]))
    && (|tasks| == 1 ==> !IsDummy(tasks[0]))
  }

  function RealCount(tasks: seq<Task>): nat {
    if tasks != [] && IsDummy(tasks[|tasks| - 1]) then |tasks| - 1 else |tasks|
  }

  // How often a task is waiting or placed.
  ghost function Account(tasks: seq<Task>, p: Plan, shared: nat, x: Task): nat
    requires forall w :: 0 <= w < |p.work| ==> shared <= |p.work[w]|
  {
    Times(tasks, x) + OnNodes(p.work, shared, |p.work|, x)
  }

  lemma {:induction false} TimesHead(list: seq<Task>, x: Task)
    requires list != []
    ensures Times(list, x) == Is(list[0], x) + Times(list[1..], x)
  {
    if |list| > 1 {
      var n := |list| - 1;
      TimesHead(list[..n], x);
      assert list[..n][1..] == list[1..][..n - 1];
    }
  }

  lemma {:induction false} AccountKept(tasks: seq<Task>, p: Plan, shared: nat, m: nat, x: Task)
    requires tasks != [] && m < |p.work| == |p.time| && forall w :: 0 <= w < |p.work| ==> shared <= |p.work[w]|
    ensures Account(tasks[1..], Put(p, m, tasks[0]), shared, x) == Account(tasks, p, shared, x)
    ensures Account(tasks[1..] + [tasks[0]], p, shared, x) == Account(tasks, p, shared, x)
  {
    TimesHead(tasks, x);
    OnNodesPlaced(p.work, shared, m, tasks[0], |p.work|, x);
    TimesSnoc(tasks[1..], tasks[0], x);
  }

  // The measure of what is left before nothing can be in the way: the tenths
  // until every node is past the last window.
  ghost function Slack(p: Plan, ranges: seq<Window>): nat {
    Quanta(p.time, LatestEnd(ranges), |p.time|)
  }

  lemma DummyCutsSlack(p: Plan, ranges: seq<Window>, m: nat)
    requires |p.work| == |p.time| > 0 && m == ArgMin(p.time, |p.time|)
    requires exists r :: r in ranges && p.time[m] < r.1
    ensures Slack(Put(p, m, DUMMY), ranges) < Slack(p, ranges)
  {
    var r :| r in ranges && p.time[m] < r.1;
    assert r.1 <= LatestEnd(ranges);
    QuantaFall(p.time, LatestEnd(ranges), m, |p.time|);
  }

  // What one pass over the queue has done: placed some task, or let time
  // pass, or nothing at all.
  ghost predicate Progress(tasks0: seq<Task>, p0: Plan, ranges0: seq<Window>, tasks: seq<Task>, p: Plan, ranges: seq<Window>, changed: bool) {
    if |tasks| < RealCount(tasks0) then changed
    else && |tasks| == RealCount(tasks0) && ranges == ranges0
         && (if changed then Slack(p, ranges) < Slack(p0, ranges0) else p == p0 && |tasks0| == |tasks|)
  }

  lemma {:induction false} TimesKept(tasks: seq<Task>, log: seq<Task>, x: Task)
    requires tasks != []
    ensures Times(tasks[1..], x) + Times(log + [tasks[0]], x) == Times(tasks, x) + Times(log, x)
    ensures Times(tasks[1..] + [tasks[0]], x) == Times(tasks, x)
  {
    hide Times;
    TimesHead(tasks, x);
    TimesSnoc(log, tasks[0], x);
    TimesSnoc(tasks[1..], tasks[0], x);
  }

  // No task is lost or made up between two moments: what waits and what is on
  // the nodes, and what waits and what is in the log, are the same together.
  ghost predicate Conserved(tasks0: seq<Task>, p0: Plan, log0: seq<Task>, tasks: seq<Task>, p: Plan, log: seq<Task>, shared: nat) {
    && (forall w :: 0 <= w < |p0.work| ==> shared <= |p0.work[w]|) && (forall w :: 0 <= w < |p.work| ==> shared <= |p.work[w]|)
    && (forall x :: Account(tasks, p, shared, x) == Account(tasks0, p0, shared, x))
    && (forall x :: Times(tasks, x) + Times(log, x) == Times(tasks0, x) + Times(log0, x))
  }

  lemma {:induction false} ConservedStill(tasks0: seq<Task>, p0: Plan, log0: seq<Task>, tasks1: seq<Task>, p1: Plan, log1: seq<Task>,
                       tasks: seq<Task>, p: Plan, log: seq<Task>, shared: nat)
    requires Conserved(tasks0, p0, log0, tasks1, p1, log1, shared) && Conserved(tasks1, p1, log1, tasks, p, log, shared)
    ensures Conserved(tasks0, p0, log0, tasks, p, log, shared)
  {
    hide Account, Times;
  }

  // One turn for the first task of the queue: it is placed, or goes to the end.
  method TryFirst(tasks: seq<Task>, p: Plan, global: RangeSet, ghost shared: nat, ghost longest: real, ghost start: Plan, ghost log: seq<Task>)
    returns (placed: bool, tasks': seq<Task>, p': Plan, ghost log': seq<Task>)
    requires Sound(p, global.ranges, shared, longest) && longest >= DUMMY.exe && tasks != [] && 0.0 < tasks[0].exe <= longest
    requires Logged(start, log, tasks, p, global.ranges)
    requires IsDummy(tasks[0]) ==> tasks[0] == Task(65535, 0.1) && AllRefused(tasks[1..], p, global.ranges)
    modifies global
    ensures Sound(p', global.ranges, shared, longest) && |p'.work| == |p.work|
    ensures tasks' == if placed then tasks[1..] else tasks[1..] + [tasks[0]]
    ensures p' == if placed then Put(p, ArgMin(p.time, |p.time|), tasks[0]) else p
    ensures Conserved(tasks, p, log, tasks', p', log', shared)
    ensures Logged(start, log', tasks', p', global.ranges)
    ensures placed <==> IsDummy(tasks[0]) || !Taken(old(global.ranges), NextWindow(p, tasks[0]))
    ensures IsDummy(tasks[0]) || !placed ==> global.ranges == old(global.ranges)
    ensures !placed ==> exists r :: r in global.ranges && p.time[ArgMin(p.time, |p.time|)] < r.1
  {
    var m := ArgMin(p.time, |p.time|);
    if IsDummy(tasks[0]) || !Taken(global.ranges, NextWindow(p, tasks[0])) {
      LogPlaced(start, log, tasks, p, global.ranges);
    } else {
      LogRotated(start, log, tasks, p, global.ranges);
    }
    hide Logged, AllRefused, Taken, NextWindow, Account;
    placed, p' := TryTask(tasks[0], p, global, shared, longest);
    tasks' := if placed then tasks[1..] else tasks[1..] + [tasks[0]];
    log' := if placed then log + [tasks[0]] else log;
    forall x ensures Account(tasks', p', shared, x) == Account(tasks, p, shared, x)
      ensures Times(tasks', x) + Times(log', x) == Times(tasks, x) + Times(log, x)
    {
      AccountKept(tasks, p, shared, m, x);
      TimesKept(tasks, log, x);
    }
  }

  // The queue after some turns of a pass: the tasks that have not had theirs,
  // then those that were refused.
  function Remaining(tasks0: seq<Task>, it: nat, back: seq<Task>): (now: seq<Task>)
    requires it <= |tasks0|
    ensures it < |tasks0| ==> now != [] && now[0] == tasks0[it]
  {
    tasks0[it..] + back
  }

  lemma Rotate(tasks: seq<Task>, it: nat, back: seq<Task>)
    requires it < |tasks|
    ensures var now := Remaining(tasks, it, back);
            && now[1..] == Remaining(tasks, it + 1, back)
            && now[1..] + [now[0]] == Remaining(tasks, it + 1, back + [tasks[it]])
  {
    var now := Remaining(tasks, it, back);
    assert tasks[it..][1..] == tasks[it + 1..];
    assert now[1..] == tasks[it + 1..] + back;
  }

  // Turn number it of a pass.
  method Turn(tasks0: seq<Task>, it: nat, back: seq<Task>, p: Plan, global: RangeSet,
              ghost shared: nat, ghost longest: real, ghost start: Plan, ghost log: seq<Task>)
    returns (placed: bool, back': seq<Task>, p': Plan, ghost log': seq<Task>)
    requires it < |tasks0| && Sound(p, global.ranges, shared, longest) && longest >= DUMMY.exe && 0.0 < tasks0[it].exe <= longest
    requires Logged(start, log, Remaining(tasks0, it, back), p, global.ranges)
    requires IsDummy(tasks0[it]) ==> tasks0[it] == Task(65535, 0.1) && AllRefused(Remaining(tasks0, it + 1, back), p, global.ranges)
    modifies global
    ensures Sound(p', global.ranges, shared, longest) && |p'.work| == |p'.time| == |p.work|
    ensures back' == if placed then back else back + [tasks0[it]]
    ensures p' == if placed then Put(p, ArgMin(p.time, |p.time|), tasks0[it]) else p
    ensures Conserved(Remaining(tasks0, it, back), p, log, Remaining(tasks0, it + 1, back'), p', log', shared)
    ensures Logged(start, log', Remaining(tasks0, it + 1, back'), p', global.ranges)
    ensures placed <==> IsDummy(tasks0[it]) || !Taken(old(global.ranges), NextWindow(p, tasks0[it]))
    ensures IsDummy(tasks0[it]) || !placed ==> global.ranges == old(global.ranges)
    ensures !placed ==> exists r :: r in global.ranges && p.time[ArgMin(p.time, |p.time|)] < r.1
  {
    Rotate(tasks0, it, back);
    hide Remaining, Logged, AllRefused, Taken, NextWindow, Conserved;
    var tasks';
    placed, tasks', p', log' := TryFirst(Remaining(tasks0, it, back), p, global, shared, longest, start, log);
    back' := if placed then back else back + [tasks0[it]];
  }

  // What a queue with a dummy at its end has been through: all other tasks
  // have just been refused.
  ghost predicate DummyIsDue(tasks: seq<Task>, p: Plan, ranges: seq<Window>)
    requires |p.time| > 0
  {
    tasks != [] && IsDummy(tasks[|tasks| - 1]) ==>
      tasks[|tasks| - 1] == Task(65535, 0.1) && AllRefused(tasks[..|tasks| - 1], p, ranges)
  }

  // Where a pass stands after it turns.
  ghost predicate Underway(tasks0: seq<Task>, p0: Plan, ranges0: seq<Window>, it: nat, back: seq<Task>, p: Plan, ranges: seq<Window>)
    requires |p.time| > 0 && |p0.time| > 0
  {
    && it <= |tasks0| && |back| <= it
    && (it < |tasks0| && |back| == it ==> p == p0 && ranges == ranges0)
    && (|back| == it ==> AllRefused(back, p, ranges))
    && (it < |tasks0| && tasks0 != [] && IsDummy(tasks0[|tasks0| - 1]) ==> |back| == it)
    && (0 < it < |tasks0| && |back| == it ==> exists r :: r in ranges && p.time[ArgMin(p.time, |p.time|)] < r.1)
    && (it == |tasks0| ==> Progress(tasks0, p0, ranges0, back, p, ranges, |back| < it))
  }

  // With a dummy due, no task before it fits, and it finds all others refused.
  lemma TurnIsReady(tasks0: seq<Task>, p0: Plan, ranges0: seq<Window>, it: nat, back: seq<Task>, p: Plan, ranges: seq<Window>, longest: real)
    requires it < |tasks0| && Queue(tasks0, longest) && |p.time| > 0 && |p0.time| > 0
    requires DummyIsDue(tasks0, p0, ranges0) && Underway(tasks0, p0, ranges0, it, back, p, ranges)
    ensures IsDummy(tasks0[it]) ==> tasks0[it] == Task(65535, 0.1) && AllRefused(Remaining(tasks0, it + 1, back), p, ranges)
    ensures IsDummy(tasks0[it]) ==> it == |tasks0| - 1 && |back| == it
    ensures IsDummy(tasks0[|tasks0| - 1]) && it < |tasks0| - 1 ==> Taken(ranges, NextWindow(p, tasks0[it]))
  {
    hide Taken, NextWindow, Progress;
    if IsDummy(tasks0[it]) { assert Remaining(tasks0, it + 1, back) == back; }
    if IsDummy(tasks0[|tasks0| - 1]) && it < |tasks0| - 1 { assert tasks0[..|tasks0| - 1][it] == tasks0[it]; }
  }

  lemma UnderwayNext(tasks0: seq<Task>, p0: Plan, ranges0: seq<Window>, it: nat, back: seq<Task>, p: Plan, ranges: seq<Window>, longest: real,
                     placed: bool, p': Plan, ranges': seq<Window>)
    requires it < |tasks0| && Queue(tasks0, longest) && |p.time| > 0 && |p0.time| > 0 && |p.work| == |p.time|
    requires DummyIsDue(tasks0, p0, ranges0) && Underway(tasks0, p0, ranges0, it, back, p, ranges)
    requires p' == if placed then Put(p, ArgMin(p.time, |p.time|), tasks0[it]) else p
    requires placed <==> IsDummy(tasks0[it]) || !Taken(ranges, NextWindow(p, tasks0[it]))
    requires IsDummy(tasks0[it]) || !placed ==> ranges' == ranges
    requires !placed ==> exists r :: r in ranges' && p.time[ArgMin(p.time, |p.time|)] < r.1
    ensures Underway(tasks0, p0, ranges0, it + 1, if placed then back else back + [tasks0[it]], p', ranges')
  {
    TurnIsReady(tasks0, p0, ranges0, it, back, p, ranges, longest);
    if placed && IsDummy(tasks0[it]) && it > 0 { DummyCutsSlack(p, ranges, ArgMin(p.time, |p.time|)); }
    hide Taken, NextWindow, Slack, DummyIsDue;
  }

  lemma PassBegins(tasks0: seq<Task>, p0: Plan, ranges0: seq<Window>, shared: nat, longest: real, log0: seq<Task>)
    requires Sound(p0, ranges0, shared, longest)
    ensures |p0.work| == |p0.time| > 0 && Remaining(tasks0, 0, []) == tasks0
    ensures tasks0 != [] ==> Underway(tasks0, p0, ranges0, 0, [], p0, ranges0)
    ensures Conserved(tasks0, p0, log0, tasks0, p0, log0, shared) && Refusals([], longest)
  {
    hide Account;
  }

  lemma PassEnds(tasks0: seq<Task>, p0: Plan, ranges0: seq<Window>, back: seq<Task>, p: Plan, ranges: seq<Window>, longest: real)
    requires |p0.time| > 0 && |p.time| > 0 && Underway(tasks0, p0, ranges0, |tasks0|, back, p, ranges)
    requires Refusals(back, longest)
    ensures Remaining(tasks0, |tasks0|, back) == back && Progress(tasks0, p0, ranges0, back, p, ranges, |back| < |tasks0|)
    ensures |back| == |tasks0| ==> AllRefused(back, p, ranges)
    ensures Queue(back, longest) && forall k :: 0 <= k < |back| ==> !IsDummy(back[k])
  {
    hide Progress, Taken, NextWindow;
  }

  // Tasks that went to the end of the queue.
  ghost predicate Refusals(back: seq<Task>, longest: real) {
    forall k :: 0 <= k < |back| ==> 0.0 < back[k].exe <= longest && !IsDummy(back[k])
  }

  lemma RefusalsNext(tasks0: seq<Task>, it: nat, back: seq<Task>, placed: bool, longest: real)
    requires it < |tasks0| && Queue(tasks0, longest) && Refusals(back, longest) && (!placed ==> !IsDummy(tasks0[it]))
    ensures 0.0 < tasks0[it].exe <= longest
    ensures Refusals(if placed then back else back + [tasks0[it]], longest)
  {
  }

  // One pass: every task in the queue gets one chance.
  method Pass(tasks0: seq<Task>, p0: Plan, global: RangeSet, ghost shared: nat, ghost longest: real, ghost start: Plan, ghost log0: seq<Task>)
    returns (tasks: seq<Task>, p: Plan, changed: bool, ghost log: seq<Task>)
    requires Sound(p0, global.ranges, shared, longest) && longest >= DUMMY.exe
    requires tasks0 != [] && Queue(tasks0, longest)
    requires Logged(start, log0, tasks0, p0, global.ranges) && DummyIsDue(tasks0, p0, global.ranges)
    modifies global
    ensures Sound(p, global.ranges, shared, longest) && |p.work| == |p.time| == |p0.work|
    ensures Queue(tasks, longest) && forall k :: 0 <= k < |tasks| ==> !IsDummy(tasks[k])
    ensures Conserved(tasks0, p0, log0, tasks, p, log, shared)
    ensures Logged(start, log, tasks, p, global.ranges)
    ensures !changed ==> AllRefused(tasks, p, global.ranges)
    ensures Progress(tasks0, p0, old(global.ranges), tasks, p, global.ranges, changed)
  {
    hide *;
    PassBegins(tasks0, p0, global.ranges, shared, longest, log0);
    p, changed, log := p0, false, log0;
    var back: seq<Task> := [];
    var it := 0;
    while it < |tasks0|
      invariant 0 <= it <= |tasks0| && changed == (|back| < it) && |back| <= it
      invariant Sound(p, global.ranges, shared, longest) && |p.work| == |p.time| == |p0.work| > 0
      invariant Refusals(back, longest)
      invariant Conserved(tasks0, p0, log0, Remaining(tasks0, it, back), p, log, shared)
      invariant Logged(start, log, Remaining(tasks0, it, back), p, global.ranges)
      invariant Underway(tasks0, p0, old(global.ranges), it, back, p, global.ranges)
    {
      TurnIsReady(tasks0, p0, old(global.ranges), it, back, p, global.ranges, longest);
      RefusalsNext(tasks0, it, back, true, longest);
      var placed: bool;
      ghost var p1, r1, back1, log1 := p, global.ranges, back, log;
      placed, back, p, log := Turn(tasks0, it, back, p, global, shared, longest, start, log);
      UnderwayNext(tasks0, p0, old(global.ranges), it, back1, p1, r1, longest, placed, p, global.ranges);
      ConservedStill(tasks0, p0, log0, Remaining(tasks0, it, back1), p1, log1, Remaining(tasks0, it + 1, back), p, log, shared);
      RefusalsNext(tasks0, it, back1, placed, longest);
      if placed { changed := true; }
      it := it + 1;
    }
    PassEnds(tasks0, p0, old(global.ranges), back, p, global.ranges, longest);
    tasks := back;
  }

  function Longest(tasks: seq<Task>): (r: real)
    ensures r >= DUMMY.exe && forall k :: 0 <= k < |tasks| ==> tasks[k].exe <= r
  {
    if tasks == [] then DUMMY.exe
    else
      var r := Longest(tasks[..|tasks| - 1]);
      assert forall k :: 0 <= k < |tasks| - 1 ==> tasks[k] == tasks[..|tasks| - 1][k];
      if tasks[|tasks| - 1].exe > r then tasks[|tasks| - 1].exe else r
  }

  // The tasks all nodes share out among them come first, on every node.
  method ShareOut(allReduce: seq<Task>, nodes: nat) returns (p: Plan)
    requires nodes > 0 && forall k :: 0 <= k < |allReduce| ==> !IsDummy(allReduce[k])
    ensures |p.work| == nodes && Timed(p.work, p.time, |allReduce|)
    ensures forall w :: 0 <= w < nodes ==> |p.work[w]| == |allReduce| && p.time[w] == p.time[0]
    ensures forall w, k :: 0 <= w < nodes && 0 <= k < |allReduce| ==>
              p.work[w][k] == Task(allReduce[k].id, allReduce[k].exe / (nodes as real))
  {
    p := Plan(seq(nodes, _ => []), seq(nodes, _ => 0.0));
    var k := 0;
    while k < |allReduce|
      invariant 0 <= k <= |allReduce|
      invariant |p.work| == |p.time| == nodes
      invariant forall w :: 0 <= w < nodes ==> |p.work[w]| == k && p.time[w] == p.time[0] == Clock(p.work[w], k)
      invariant forall w, j :: 0 <= w < nodes && 0 <= j < k ==> p.work[w][j] == Task(allReduce[j].id, allReduce[j].exe / (nodes as real))
    {
      var share := Task(allReduce[k].id, allReduce[k].exe / (nodes as real));
      ghost var before := p;
      var w := 0;
      while w < nodes
        invariant 0 <= w <= nodes && |p.work| == |p.time| == nodes
        invariant forall v :: 0 <= v < w ==> p.work[v] == before.work[v] + [share] && p.time[v] == before.time[v] + Length(share)
        invariant forall v :: w <= v < nodes ==> p.work[v] == before.work[v] && p.time[v] == before.time[v]
      {
        p := Put(p, w, share);
        w := w + 1;
      }
      forall v | 0 <= v < nodes ensures Clock(p.work[v], k + 1) == p.time[v] {
        ClockPrefix(before.work[v], share, k);
      }
      k := k + 1;
    }
  }

  lemma {:induction false} NothingOwn(work: seq<seq<Task>>, shared: nat, n: nat, x: Task)
    requires n <= |work| && forall w :: 0 <= w < |work| ==> |work[w]| == shared
    ensures OnNodes(work, shared, n, x) == 0
  {
    if n > 0 {
      NothingOwn(work, shared, n - 1, x);
      assert work[n - 1][shared..] == [];
    }
  }

  // Every task is waiting or placed, as often as it was given; and waiting or
  // in the log.
  ghost predicate Accounted(tasks: seq<Task>, log: seq<Task>, p: Plan, shared: nat, given: seq<Task>) {
    && (forall w :: 0 <= w < |p.work| ==> shared <= |p.work[w]|)
    && (forall x :: !IsDummy(x) ==> Account(tasks, p, shared, x) == Times(given, x))
    && (forall x :: !IsDummy(x) ==> Times(tasks, x) + Times(log, x) == Times(given, x))
  }

  lemma {:induction false} AccountedStill(tasks0: seq<Task>, p0: Plan, log0: seq<Task>, tasks: seq<Task>, p: Plan, log: seq<Task>, shared: nat, given: seq<Task>)
    requires Accounted(tasks0, log0, p0, shared, given) && Conserved(tasks0, p0, log0, tasks, p, log, shared)
    ensures Accounted(tasks, log, p, shared, given)
  {
    hide Account, Times;
  }

  lemma DummyIsNotCounted(tasks: seq<Task>, log: seq<Task>, p: Plan, shared: nat, given: seq<Task>)
    requires Accounted(tasks, log, p, shared, given)
    ensures Accounted(tasks + [DUMMY], log, p, shared, given)
  {
    forall x | !IsDummy(x) ensures Times(tasks + [DUMMY], x) == Times(tasks, x) {
      TimesSnoc(tasks, DUMMY, x);
    }
  }

  lemma AllPlaced(log: seq<Task>, p: Plan, shared: nat, given: seq<Task>)
    requires Accounted([], log, p, shared, given)
    ensures forall x :: !IsDummy(x) ==> OnNodes(p.work, shared, |p.work|, x) == Times(given, x) == Times(log, x)
  {
    forall x | !IsDummy(x) ensures OnNodes(p.work, shared, |p.work|, x) == Times(given, x) == Times(log, x) {
      assert Account([], p, shared, x) == Times(given, x);
    }
  }

  // What the nodes start from: all shared tasks, a share each, and equal times.
  ghost predicate SharedOut(start: Plan, allReduce: seq<Task>, nodes: nat)
    requires nodes > 0
  {
    && |start.work| == |start.time| == nodes && Timed(start.work, start.time, |allReduce|)
    && (forall w :: 0 <= w < nodes ==> |start.work[w]| == |allReduce| && start.time[w] == start.time[0])
    && forall w, k :: 0 <= w < nodes && 0 <= k < |allReduce| ==>
         start.work[w][k] == Task(allReduce[k].id, allReduce[k].exe / (nodes as real))
  }

  function DummyTurn(tasks: seq<Task>): nat {
    if tasks != [] && IsDummy(tasks[|tasks| - 1]) then 0 else 1
  }

  // What a round leaves: fewer tasks, or less slack, or now a dummy.
  lemma RoundFalls(tasks0: seq<Task>, p0: Plan, ranges0: seq<Window>, tasks: seq<Task>, p: Plan, ranges: seq<Window>, changed: bool)
    requires Progress(tasks0, p0, ranges0, tasks, p, ranges, changed) && forall k :: 0 <= k < |tasks| ==> !IsDummy(tasks[k])
    ensures var next := if changed then tasks else tasks + [DUMMY];
            || RealCount(next) < RealCount(tasks0)
            || (RealCount(next) == RealCount(tasks0) && Slack(p, ranges) < Slack(p0, ranges0))
            || (RealCount(next) == RealCount(tasks0) && Slack(p, ranges) == Slack(p0, ranges0) && DummyTurn(next) < DummyTurn(tasks0))
  {
    hide Slack;
  }

  // A dummy joins a queue of refused tasks.
  lemma DummyJoins(tasks: seq<Task>, p: Plan, ranges: seq<Window>, longest: real, start: Plan, log: seq<Task>, shared: nat, given: seq<Task>)
    requires |p.time| > 0 && tasks != [] && Queue(tasks, longest) && longest >= DUMMY.exe && (forall k :: 0 <= k < |tasks| ==> !IsDummy(tasks[k]))
    requires AllRefused(tasks, p, ranges) && Logged(start, log, tasks, p, ranges) && Accounted(tasks, log, p, shared, given)
    ensures Queue(tasks + [DUMMY], longest) && DummyIsDue(tasks + [DUMMY], p, ranges)
    ensures Logged(start, log, tasks + [DUMMY], p, ranges) && Accounted(tasks + [DUMMY], log, p, shared, given)
  {
    LogDummy(start, log, tasks, p, ranges);
    DummyIsNotCounted(tasks, log, p, shared, given);
    hide Logged, Accounted, Taken, NextWindow;
    assert (tasks + [DUMMY])[..|tasks|] == tasks;
  }

  lemma ScheduleBegins(start: Plan, allReduce: seq<Task>, nodes: nat, given: seq<Task>)
    requires nodes > 0 && SharedOut(start, allReduce, nodes)
    requires forall k :: 0 <= k < |given| ==> given[k].exe > 0.0 && !IsDummy(given[k])
    ensures Sound(start, [], |allReduce|, Longest(given)) && |start.work| == |start.time| == nodes
    ensures Queue(given, Longest(given)) && DummyIsDue(given, start, [])
    ensures Accounted(given, [], start, |allReduce|, given) && Logged(start, [], given, start, [])
  {
    forall x ensures Account(given, start, |allReduce|, x) == Times(given, x) {
      NothingOwn(start.work, |allReduce|, nodes, x);
    }
  }

  lemma NoneWaiting(tasks: seq<Task>, p: Plan, ranges: seq<Window>)
    requires |p.time| > 0 && forall k :: 0 <= k < |tasks| ==> !IsDummy(tasks[k])
    ensures DummyIsDue(tasks, p, ranges)
  {
  }

  lemma ScheduleEnds(p: Plan, ranges: seq<Window>, start: Plan, log: seq<Task>, shared: nat, given: seq<Task>)
    requires Sound(p, ranges, shared, Longest(given)) && Logged(start, log, [], p, ranges) && Accounted([], log, p, shared, given)
    ensures Timed(p.work, p.time, shared) && Apart(p.work, shared) && Level(p.time, Longest(given))
    ensures forall x :: !IsDummy(x) ==> OnNodes(p.work, shared, |p.work|, x) == Times(given, x) == Times(log, x)
    ensures |start.work| == |start.time| > 0 && p == Replay(start, log) && InOrder(start, log, [])
  {
    AllPlaced(log, p, shared, given);
  }

  // The whole schedule. The loop ends. The plan is a log of tasks, each put on
  // the node free first: every forward task as often as it was given, each at a
  // time when its window was free, and dummies only when no waiting task could
  // go in. No two apply windows overlap, and the nodes finish within the longest
  // task and one apply of each other.
  method Schedule(forwardTasks: seq<Task>, allReduce: seq<Task>, nodes: nat) returns (p: Plan, ghost start: Plan, ghost log: seq<Task>)
    requires nodes > 0
    requires forall k :: 0 <= k < |forwardTasks| ==> forwardTasks[k].exe > 0.0 && !IsDummy(forwardTasks[k])
    requires forall k :: 0 <= k < |allReduce| ==> !IsDummy(allReduce[k])
    ensures |p.work| == nodes && Timed(p.work, p.time, |allReduce|)
    ensures forall x :: !IsDummy(x) ==> OnNodes(p.work, |allReduce|, nodes, x) == Times(forwardTasks, x) == Times(log, x)
    ensures SharedOut(start, allReduce, nodes) && p == Replay(start, log) && InOrder(start, log, [])
    ensures Apart(p.work, |allReduce|)
    ensures Level(p.time, Longest(forwardTasks))
  {
    var global := new RangeSet();
    ghost var shared, longest := |allReduce|, Longest(forwardTasks);
    p := ShareOut(allReduce, nodes);
    start, log := p, [];
    assert SharedOut(start, allReduce, nodes);
    ScheduleBegins(start, allReduce, nodes, forwardTasks);
    assert longest >= DUMMY.exe;
    hide *;
    var tasks := forwardTasks;
    while tasks != []
      invariant Sound(p, global.ranges, shared, longest) && |p.work| == |p.time| == nodes
      invariant Queue(tasks, longest) && DummyIsDue(tasks, p, global.ranges)
      invariant Accounted(tasks, log, p, shared, forwardTasks)
      invariant Logged(start, log, tasks, p, global.ranges)
      decreases RealCount(tasks), Slack(p, global.ranges), DummyTurn(tasks)
    {
      var changed: bool;
      ghost var tasks1, p1, log1, r1 := tasks, p, log, global.ranges;
      tasks, p, changed, log := Pass(tasks, p, global, shared, longest, start, log);
      AccountedStill(tasks1, p1, log1, tasks, p, log, shared, forwardTasks);
      RoundFalls(tasks1, p1, r1, tasks, p, global.ranges, changed);
      if changed {
        NoneWaiting(tasks, p, global.ranges);
      } else {
        SomeWaiting(tasks1, p1, r1, tasks, p, global.ranges);
        DummyJoins(tasks, p, global.ranges, longest, start, log, shared, forwardTasks);
        tasks := tasks + [DUMMY];
      }
    }
    ScheduleEnds(p, global.ranges, start, log, shared, forwardTasks);
  }

  lemma SomeWaiting(tasks0: seq<Task>, p0: Plan, ranges0: seq<Window>, tasks: seq<Task>, p: Plan, ranges: seq<Window>)
    requires tasks0 != [] && Progress(tasks0, p0, ranges0, tasks, p, ranges, false)
    ensures tasks != []
  {
    hide Slack;
  }
}
