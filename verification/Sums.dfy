/** Sums of sequences of naturals. */
module Sums {
  function Sum(s: seq<nat>): nat {
    if s == [] then 0 else Sum(s[..|s| - 1]) + s[|s| - 1]
  }

  lemma {:induction false} SumUpdate(s: seq<nat>, i: nat, x: nat)
    requires i < |s|
    ensures Sum(s[i := x]) == Sum(s) - s[i] + x
  {
    var front := s[..|s| - 1];
    var t := s[i := x];
    if i == |s| - 1 {
      assert t[..|t| - 1] == front;
    } else {
      assert t[..|t| - 1] == front[i := x];
      SumUpdate(front, i, x);
    }
  }

  /** A sum of equal or smaller terms; equal only when every term is. */
  lemma {:induction false} SumBound(s: seq<nat>, b: nat)
    requires forall i :: 0 <= i < |s| ==> s[i] <= b
    ensures Sum(s) <= |s| * b
    ensures Sum(s) == |s| * b <==> forall i :: 0 <= i < |s| ==> s[i] == b
  {
    if s != [] {
      var front := s[..|s| - 1];
      SumBound(front, b);
      assert |s| * b == |front| * b + b;
      assert forall i :: 0 <= i < |front| ==> front[i] == s[i];
    }
  }

  /** Term by term smaller; equal only when every term is. */
  lemma {:induction false} SumBelow(s: seq<nat>, t: seq<nat>)
    requires |s| == |t| && forall i :: 0 <= i < |s| ==> s[i] <= t[i]
    ensures Sum(s) <= Sum(t)
    ensures Sum(s) == Sum(t) <==> s == t
  {
    if s != [] {
      var s0, t0 := s[..|s| - 1], t[..|s| - 1];
      SumBelow(s0, t0);
      assert s == s0 + [s[|s| - 1]] && t == t0 + [t[|s| - 1]];
    }
  }
}
