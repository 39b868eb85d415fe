/**
 * The library sort the host code calls, for any total order: a sorted
 * rearrangement, here by insertion.
 */
module Sorting {
  ghost predicate Order<T(!new)>(le: (T, T) -> bool) {
    && (forall a, b :: le(a, b) || le(b, a))
    && (forall a, b, c :: le(a, b) && le(b, c) ==> le(a, c))
  }

  ghost predicate SortedBy<T>(s: seq<T>, le: (T, T) -> bool) {
    forall i, j :: 0 <= i <= j < |s| ==> le(s[i], s[j])
  }

  function InsertAt<T>(s: seq<T>, at: nat, x: T): (r: seq<T>)
    requires at <= |s|
    ensures |r| == |s| + 1 && r[at] == x
    ensures forall j :: 0 <= j < at ==> r[j] == s[j]
    ensures forall j :: at < j < |r| ==> r[j] == s[j - 1]
  {
    s[..at] + [x] + s[at..]
  }

  lemma InsertHolds<T>(s: seq<T>, at: nat, x: T)
    requires at <= |s|
    ensures multiset(InsertAt(s, at, x)) == multiset(s) + multiset{x}
  {
    assert s == s[..at] + s[at..];
  }

  // An element that is not below what stands before it, nor above what stands
  // behind it, may be put in.
  lemma InsertSorted<T(!new)>(s: seq<T>, at: nat, x: T, le: (T, T) -> bool)
    requires Order(le) && SortedBy(s, le) && at <= |s|
    requires forall k :: 0 <= k < at ==> le(s[k], x)
    requires at < |s| ==> le(x, s[at])
    ensures SortedBy(InsertAt(s, at, x), le)
  {
    var r := InsertAt(s, at, x);
    forall i, j | 0 <= i <= j < |r| ensures le(r[i], r[j]) {
      var i', j' := if i > at then i - 1 else i, if j > at then j - 1 else j;
      if i == at && j > at {
        assert le(s[at], s[j']);
      } else if i != at && j != at {
        assert le(s[i'], s[j']);
      }
    }
  }

  method Insert<T(!new)>(s: seq<T>, x: T, le: (T, T) -> bool) returns (r: seq<T>)
    requires Order(le) && SortedBy(s, le)
    ensures multiset(r) == multiset(s) + multiset{x} && SortedBy(r, le)
  {
    var at := 0;
    while at < |s| && le(s[at], x)
      invariant 0 <= at <= |s| && forall k :: 0 <= k < at ==> le(s[k], x)
    {
      at := at + 1;
    }
    InsertHolds(s, at, x);
    InsertSorted(s, at, x, le);
    r := InsertAt(s, at, x);
  }

  method Sort<T(!new)>(s: seq<T>, le: (T, T) -> bool) returns (r: seq<T>)
    requires Order(le)
    ensures multiset(r) == multiset(s) && SortedBy(r, le)
    ensures |r| == |s| && forall x :: x in r <==> x in s
  {
    r := [];
    var k := 0;
    while k < |s|
      invariant 0 <= k <= |s| && multiset(r) == multiset(s[..k]) && SortedBy(r, le)
    {
      r := Insert(r, s[k], le);
      assert s[..k + 1] == s[..k] + [s[k]];
      k := k + 1;
    }
    assert s[..k] == s;
    SameElements(r, s);
  }

  lemma SameElements<T>(r: seq<T>, s: seq<T>)
    requires multiset(r) == multiset(s)
    ensures |r| == |s| && forall x :: x in r <==> x in s
  {
    assert |multiset(r)| == |multiset(s)|;
    forall x ensures x in r <==> x in s {
      assert x in r <==> x in multiset(r);
      assert x in s <==> x in multiset(s);
    }
  }

  // ---------------------------------------------------------------------
  // Orders given by indices.
  // ---------------------------------------------------------------------

  // The elements of a list in the order given.
  function Pick<T>(s: seq<T>, order: seq<nat>): (r: seq<T>)
    requires forall i :: 0 <= i < |order| ==> order[i] < |s|
    ensures |r| == |order| && forall i :: 0 <= i < |order| ==> r[i] == s[order[i]]
  {
    seq(|order|, i requires 0 <= i < |order| => s[order[i]])
  }

  function Count(n: nat): (s: seq<nat>)
    ensures |s| == n && forall i :: 0 <= i < n ==> s[i] == i
  {
    seq(n, i => i)
  }

  // The same indices in another order pick the same elements.
  lemma {:induction false} PickPermutes<T>(s: seq<T>, a: seq<nat>, b: seq<nat>)
    requires multiset(a) == multiset(b) && forall i :: 0 <= i < |a| ==> a[i] < |s|
    ensures forall i :: 0 <= i < |b| ==> b[i] < |s|
    ensures multiset(Pick(s, a)) == multiset(Pick(s, b))
    decreases |a|
  {
    SameElements(a, b);
    assert forall i :: 0 <= i < |b| ==> b[i] in b;
    if a != [] {
      var n := |a| - 1;
      assert a[n] in b;
      var i :| 0 <= i < |b| && b[i] == a[n];
      WithoutOne(a, b, i);
      PickPermutes(s, a[..n], b[..i] + b[i + 1..]);
      PickWithout(s, b, i);
      assert Pick(s, a) == Pick(s, a[..n]) + [s[a[n]]];
    } else {
      assert Pick(s, a) == [] && Pick(s, b) == [];
    }
  }

  lemma PickWithout<T>(s: seq<T>, b: seq<nat>, i: nat)
    requires i < |b| && forall k :: 0 <= k < |b| ==> b[k] < |s|
    ensures multiset(Pick(s, b)) == multiset(Pick(s, b[..i] + b[i + 1..])) + multiset{s[b[i]]}
  {
    var p := Pick(s, b);
    assert Pick(s, b[..i] + b[i + 1..]) == p[..i] + p[i + 1..];
    assert p == p[..i] + [p[i]] + p[i + 1..];
  }

  lemma WithoutOne<T>(a: seq<T>, b: seq<T>, i: nat)
    requires a != [] && i < |b| && b[i] == a[|a| - 1] && multiset(a) == multiset(b)
    ensures multiset(a[..|a| - 1]) == multiset(b[..i] + b[i + 1..])
  {
    assert a == a[..|a| - 1] + [a[|a| - 1]];
    assert b == b[..i] + [b[i]] + b[i + 1..];
    assert multiset(b) == multiset(b[..i]) + multiset{b[i]} + multiset(b[i + 1..]);
    assert multiset(a) == multiset(a[..|a| - 1]) + multiset{b[i]};
    assert multiset(a[..|a| - 1]) == multiset(b) - multiset{b[i]} == multiset(b[..i]) + multiset(b[i + 1..]);
  }
}
