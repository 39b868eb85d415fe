/** The coalescer: a row of source ids becomes burst numbers, a chain of merge stages drops
    repeats inside each row, a filter drops repeats across rows. */
module Coalesce {
  import opened MergeStage

  // ----- adjacent duplicates -----

  function Dedup(s: seq<nat>): (d: seq<nat>)
    ensures s != [] ==> d != [] && d[|d| - 1] == s[|s| - 1]
    ensures s == [] ==> d == []
  {
    if |s| <= 1 then s
    else
      var d := Dedup(s[..|s| - 1]);
      if s[|s| - 1] == s[|s| - 2] then d else d + [s[|s| - 1]]
  }

  lemma DedupSnoc(s: seq<nat>, x: nat)
    ensures Dedup(s + [x]) == if s != [] && s[|s| - 1] == x then Dedup(s) else Dedup(s) + [x]
  {
    assert (s + [x])[..|s|] == s;
  }

  lemma SameAfterOneMore(u: seq<nat>, v: seq<nat>, x: nat)
    requires u != [] && v != [] && u[|u| - 1] == v[|v| - 1] && Dedup(u) == Dedup(v)
    ensures Dedup(u + [x]) == Dedup(v + [x])
    ensures u[|u| - 1] == x ==> Dedup(v) == Dedup(u + [x])
  {
    DedupSnoc(u, x);
    DedupSnoc(v, x);
  }

  /** Dropping repeats piecewise first makes no difference. */
  lemma {:induction false} DedupPieces(s: seq<nat>, t: seq<nat>)
    ensures Dedup(s + Dedup(t)) == Dedup(s + t)
  {
    if |t| > 1 {
      var front, x := t[..|t| - 1], t[|t| - 1];
      var u, v := s + front, s + Dedup(front);
      assert s + t == u + [x];
      assert front[|front| - 1] != x ==> s + Dedup(t) == v + [x];
      DedupPieces(s, front);
      SameAfterOneMore(u, v, x);
    }
  }

  lemma {:induction false} DedupMembers(s: seq<nat>, x: nat)
    ensures x in Dedup(s) <==> x in s
  {
    if |s| > 1 {
      DedupMembers(s[..|s| - 1], x);
      assert s == s[..|s| - 1] + [s[|s| - 1]];
    }
  }

  /** On sorted input no repeats are left at all. */
  lemma {:induction false} DedupSorted(s: seq<nat>)
    requires forall i, j :: 0 <= i < j < |s| ==> s[i] <= s[j]
    ensures forall i, j :: 0 <= i < j < |Dedup(s)| ==> Dedup(s)[i] < Dedup(s)[j]
  {
    if |s| > 1 {
      var front := s[..|s| - 1];
      DedupSorted(front);
      forall i | 0 <= i < |Dedup(front)| ensures Dedup(front)[i] <= front[|front| - 1] {
        DedupMembers(front, Dedup(front)[i]);
      }
    }
  }

  // ----- rows on a stream -----

  /** A row on the stream: its last item marked. */
  function Mark(row: seq<nat>): (m: seq<Item>)
    ensures |m| == |row| && forall i :: 0 <= i < |m| ==> m[i] == Item(row[i], i == |row| - 1)
  {
    seq(|row|, i requires 0 <= i < |row| => Item(row[i], i == |row| - 1))
  }

  function Stream(rows: seq<seq<nat>>): seq<Item> {
    if rows == [] then [] else Stream(rows[..|rows| - 1]) + Mark(rows[|rows| - 1])
  }

  function Data(s: seq<Item>): (d: seq<nat>)
    ensures |d| == |s| && forall i :: 0 <= i < |d| ==> d[i] == s[i].data
  {
    seq(|s|, i requires 0 <= i < |s| => s[i].data)
  }

  function Concat(rows: seq<seq<nat>>): seq<nat> {
    if rows == [] then [] else Concat(rows[..|rows| - 1]) + rows[|rows| - 1]
  }

  lemma {:induction false} StreamData(rows: seq<seq<nat>>)
    ensures Data(Stream(rows)) == Concat(rows)
  {
    if rows != [] {
      StreamData(rows[..|rows| - 1]);
    }
  }

  /** `row` with `b` after it unless it already ends in `b`. */
  function Extend(row: seq<nat>, b: nat): seq<nat>
    requires row != []
  {
    if row[|row| - 1] == b then row else row + [b]
  }

  ghost predicate NonEmpty(rows: seq<seq<nat>>) {
    forall r :: 0 <= r < |rows| ==> rows[r] != []
  }

  /** The first `k` items of a row, none of them the last. */
  function Unmarked(row: seq<nat>, k: nat): (m: seq<Item>)
    requires k <= |row|
    ensures |m| == k && forall i :: 0 <= i < k ==> m[i] == Item(row[i], false)
  {
    seq(k, i requires 0 <= i < k => Item(row[i], false))
  }

  lemma UnmarkedNext(row: seq<nat>, k: nat)
    requires k < |row|
    ensures Unmarked(row, k + 1) == Unmarked(row, k) + [Item(row[k], false)]
  {
  }

  lemma UnmarkedLast(row: seq<nat>, b: nat)
    requires row != []
    ensures Unmarked(row, |row| - 1) + Emit(Item(row[|row| - 1], true), b) == Mark(Extend(row, b))
  {
  }

  /** Inside a row: what has been merged when `k` items of it have gone by. */
  lemma {:induction false} MergedInRow(s: seq<Item>, row: seq<nat>, k: nat, col: seq<nat>)
    requires k < |row|
    ensures var all := s + Mark(row);
            && Rows(all, |s| + k) == Rows(s, |s|)
            && Merged(all, |s| + k, col) == Merged(s, |s|, col) + Unmarked(row, k)
  {
    var all := s + Mark(row);
    if k == 0 {
      RowsStable(s, all, |s|);
      MergedStable(s, all, |s|, col);
      assert Merged(s, |s|, col) + [] == Merged(s, |s|, col);
    } else {
      MergedInRow(s, row, k - 1, col);
      UnmarkedNext(row, k - 1);
      assert all[|s| + k - 1] == Item(row[k - 1], false);
    }
  }

  lemma Regroup(a: seq<Item>, b: seq<Item>, c: seq<Item>)
    ensures (a + b) + c == a + (b + c)
  {
  }

  /** A whole row is extended by its column. */
  lemma MergedRow(s: seq<Item>, row: seq<nat>, col: seq<nat>)
    requires row != []
    ensures var all := s + Mark(row);
            && Rows(all, |all|) == Rows(s, |s|) + 1
            && Merged(all, |all|, col) == Merged(s, |s|, col) + Mark(Extend(row, ColumnAt(col, Rows(s, |s|))))
  {
    var all, k := s + Mark(row), |row| - 1;
    var b := ColumnAt(col, Rows(s, |s|));
    assert all[|s| + k] == Item(row[k], true);
    MergedInRow(s, row, k, col);
    UnmarkedLast(row, b);
    Regroup(Merged(s, |s|, col), Unmarked(row, k), Emit(Item(row[k], true), b));
  }

  /** Every row extended by its column entry. */
  function ExtendAll(rows: seq<seq<nat>>, col: seq<nat>): (e: seq<seq<nat>>)
    requires forall r :: 0 <= r < |rows| ==> rows[r] != []
    ensures |e| == |rows| && forall r :: 0 <= r < |rows| ==> e[r] == Extend(rows[r], ColumnAt(col, r))
  {
    seq(|rows|, r requires 0 <= r < |rows| => Extend(rows[r], ColumnAt(col, r)))
  }

  /** A stage on a stream of rows is `Extend` on each row. */
  lemma {:induction false} MergedRows(rows: seq<seq<nat>>, col: seq<nat>)
    requires NonEmpty(rows)
    ensures var s := Stream(rows);
            && Rows(s, |s|) == |rows| && (s != [] ==> s[|s| - 1].last)
            && Merged(s, |s|, col) == Stream(ExtendAll(rows, col))
  {
    if rows != [] {
      var front, row := rows[..|rows| - 1], rows[|rows| - 1];
      MergedRows(front, col);
      MergedRow(Stream(front), row, col);
      hide Merged, Rows, Extend, ColumnAt;
      assert ExtendAll(rows, col)[..|rows| - 1] == ExtendAll(front, col);
    }
  }
}
