/**
 * `df.sort_values("Date")` of feature_engineering.py's `generate_features`: the
 * dates are the strings of the processed match file, compared as Python compares
 * strings, with missing dates placed last.  The sort is not stable, so the model
 * accepts any row order that puts the dates in ascending order.
 */
module Sorting {
  import opened Values
  import opened Frames

  /** Python's `<=` on strings: lexicographic by code point. */
  predicate StrLe(a: string, b: string)
    decreases |a|
  {
    a == [] || (b != [] && (a[0] < b[0] || (a[0] == b[0] && StrLe(a[1..], b[1..]))))
  }

  lemma {:induction false} StrLeTotal(a: string, b: string)
    ensures StrLe(a, b) || StrLe(b, a)
    decreases |a|
  {
    if a != [] && b != [] && a[0] == b[0] {
      StrLeTotal(a[1..], b[1..]);
    }
  }

  lemma {:induction false} StrLeTransitive(a: string, b: string, c: string)
    requires StrLe(a, b) && StrLe(b, c)
    ensures StrLe(a, c)
    decreases |a|
  {
    if a != [] && a[0] == b[0] && b[0] == c[0] {
      StrLeTransitive(a[1..], b[1..], c[1..]);
    }
  }

  /** A date cell: a string, or missing. */
  predicate DateCell(v: Value) { v.Str? || v.Missing? }

  /** The order `sort_values` puts date cells in: strings ascending, missing last. */
  predicate DateLe(a: Value, b: Value)
    requires DateCell(a) && DateCell(b)
  {
    if b.Missing? then true
    else if a.Missing? then false
    else StrLe(a.s, b.s)
  }

  lemma DateLeTotal(a: Value, b: Value)
    requires DateCell(a) && DateCell(b)
    ensures DateLe(a, b) || DateLe(b, a)
  {
    if a.Str? && b.Str? {
      StrLeTotal(a.s, b.s);
    }
  }

  lemma DateLeTransitive(a: Value, b: Value, c: Value)
    requires DateCell(a) && DateCell(b) && DateCell(c) && DateLe(a, b) && DateLe(b, c)
    ensures DateLe(a, c)
  {
    if a.Str? && b.Str? && c.Str? {
      StrLeTransitive(a.s, b.s, c.s);
    }
  }

  /** Every cell of the column is a date cell. */
  predicate DateColumn(dates: seq<Value>)
  {
    forall i :: 0 <= i < |dates| ==> DateCell(dates[i])
  }

  /** The row numbers `0 .. n - 1`. */
  function Rows(n: nat): (r: seq<nat>)
    ensures |r| == n && forall i :: 0 <= i < n ==> r[i] == i
  {
    seq(n, i requires 0 <= i < n => i)
  }

  /** Row numbers, all below `n`, whose dates ascend. */
  predicate SortedBy(order: seq<nat>, dates: seq<Value>)
    requires DateColumn(dates)
  {
    && (forall i :: 0 <= i < |order| ==> order[i] < |dates|)
    && (forall i, j :: 0 <= i < j < |order| && order[i] < |dates| && order[j] < |dates| ==> DateLe(dates[order[i]], dates[order[j]]))
  }

  /** A row order `sort_values("Date")` may produce: every row once, dates ascending. */
  predicate IsDateOrder(order: seq<nat>, dates: seq<Value>)
    requires DateColumn(dates)
  {
    multiset(order) == multiset(Rows(|dates|)) && SortedBy(order, dates)
  }

  /** `order` with row `k` inserted before the first row whose date is not earlier. */
  function Insert(order: seq<nat>, k: nat, dates: seq<Value>): (r: seq<nat>)
    requires DateColumn(dates) && k < |dates|
    ensures multiset(r) == multiset(order) + multiset{k}
  {
    if order == [] then [k]
    else if order[0] >= |dates| || DateLe(dates[k], dates[order[0]]) then [k] + order
    else
      assert order == [order[0]] + order[1..];
      [order[0]] + Insert(order[1..], k, dates)
  }

  /** Insertion keeps the order sorted. */
  lemma {:induction false} InsertSorted(order: seq<nat>, k: nat, dates: seq<Value>)
    requires DateColumn(dates) && k < |dates| && SortedBy(order, dates)
    ensures SortedBy(Insert(order, k, dates), dates)
    decreases |order|
  {
    if order != [] {
      if DateLe(dates[k], dates[order[0]]) {
        InsertFirst(order, k, dates);
      } else {
        var rest := order[1..];
        assert SortedBy(rest, dates) by {
          forall i | 0 <= i < |rest| ensures rest[i] == order[i + 1] { }
        }
        InsertSorted(rest, k, dates);
        InsertLater(order, k, dates);
      }
    }
  }

  /** A row no later than the first goes in front, and the order stays sorted. */
  lemma InsertFirst(order: seq<nat>, k: nat, dates: seq<Value>)
    requires DateColumn(dates) && k < |dates| && SortedBy(order, dates)
    requires order != [] && DateLe(dates[k], dates[order[0]])
    ensures SortedBy(Insert(order, k, dates), dates)
  {
    var r := Insert(order, k, dates);
    assert r == [k] + order;
    forall j | 0 < j < |r| ensures DateLe(dates[k], dates[r[j]]) {
      if j > 1 {
        DateLeTransitive(dates[k], dates[order[0]], dates[order[j - 1]]);
      }
    }
  }

  /** A row later than the first goes into the rest, which stays after the first. */
  lemma InsertLater(order: seq<nat>, k: nat, dates: seq<Value>)
    requires DateColumn(dates) && k < |dates| && SortedBy(order, dates)
    requires order != [] && !DateLe(dates[k], dates[order[0]])
    requires SortedBy(Insert(order[1..], k, dates), dates)
    ensures SortedBy(Insert(order, k, dates), dates)
  {
    var rest := order[1..];
    var tail := Insert(rest, k, dates);
    assert Insert(order, k, dates) == [order[0]] + tail;
    DateLeTotal(dates[k], dates[order[0]]);
    forall l | 0 <= l < |rest| ensures DateLe(dates[order[0]], dates[rest[l]]) {
      assert rest[l] == order[l + 1];
    }
    InsertLowerBound(rest, k, order[0], dates);
    SortedCons(order[0], tail, dates);
  }

  /** A date no later than the inserted row and every listed row bounds the result. */
  lemma {:induction false} InsertLowerBound(order: seq<nat>, k: nat, x: nat, dates: seq<Value>)
    requires DateColumn(dates) && k < |dates| && x < |dates|
    requires forall l :: 0 <= l < |order| ==> order[l] < |dates|
    requires DateLe(dates[x], dates[k])
    requires forall l :: 0 <= l < |order| ==> DateLe(dates[x], dates[order[l]])
    ensures forall j :: 0 <= j < |Insert(order, k, dates)| ==>
      Insert(order, k, dates)[j] < |dates| && DateLe(dates[x], dates[Insert(order, k, dates)[j]])
    decreases |order|
  {
    if order != [] && !DateLe(dates[k], dates[order[0]]) {
      var rest := order[1..];
      forall l | 0 <= l < |rest| ensures rest[l] < |dates| && DateLe(dates[x], dates[rest[l]]) {
        assert rest[l] == order[l + 1];
      }
      InsertLowerBound(rest, k, x, dates);
      var r := Insert(order, k, dates);
      assert r == [order[0]] + Insert(rest, k, dates);
      forall j | 0 < j < |r| ensures r[j] < |dates| && DateLe(dates[x], dates[r[j]]) {
        assert r[j] == Insert(rest, k, dates)[j - 1];
      }
    }
  }

  /** A row no later than every row of a sorted order may go in front of it. */
  lemma SortedCons(x: nat, s: seq<nat>, dates: seq<Value>)
    requires DateColumn(dates) && x < |dates| && SortedBy(s, dates)
    requires forall j :: 0 <= j < |s| ==> DateLe(dates[x], dates[s[j]])
    ensures SortedBy([x] + s, dates)
  {
    var r := [x] + s;
    forall i, j | 0 <= i < j < |r| ensures DateLe(dates[r[i]], dates[r[j]]) {
      if i > 0 {
        assert r[i] == s[i - 1];
      }
      assert r[j] == s[j - 1];
    }
  }

  /** Insertion sort of the first `m` rows by date. */
  function SortRows(dates: seq<Value>, m: nat): (order: seq<nat>)
    requires DateColumn(dates) && m <= |dates|
    ensures multiset(order) == multiset(Rows(m)) && SortedBy(order, dates)
  {
    if m == 0 then []
    else
      var prev := SortRows(dates, m - 1);
      SortStep(prev, m, dates);
      Insert(prev, m - 1, dates)
  }

  /** Inserting row `m - 1` into a sorted order of the first `m - 1` rows sorts the first `m`. */
  lemma SortStep(prev: seq<nat>, m: nat, dates: seq<Value>)
    requires DateColumn(dates) && 0 < m <= |dates|
    requires multiset(prev) == multiset(Rows(m - 1)) && SortedBy(prev, dates)
    ensures multiset(Insert(prev, m - 1, dates)) == multiset(Rows(m))
    ensures SortedBy(Insert(prev, m - 1, dates), dates)
  {
    InsertSorted(prev, m - 1, dates);
    assert Rows(m) == Rows(m - 1) + [m - 1];
  }

  /** Every date column has an order `sort_values` may produce. */
  lemma DateOrderExists(dates: seq<Value>)
    requires DateColumn(dates)
    ensures IsDateOrder(SortRows(dates, |dates|), dates)
  {
  }

  /** A date order is a permutation: same length, no row twice, every row present. */
  lemma DateOrderIsPermutation(order: seq<nat>, dates: seq<Value>)
    requires DateColumn(dates) && IsDateOrder(order, dates)
    ensures |order| == |dates|
    ensures forall i, j :: 0 <= i < j < |order| ==> order[i] != order[j]
    ensures forall k :: 0 <= k < |dates| ==> k in order
  {
    assert |order| == |multiset(order)| == |multiset(Rows(|dates|))| == |dates|;
    forall k | 0 <= k < |dates| ensures k in order {
      assert Rows(|dates|)[k] == k;
      assert k in multiset(Rows(|dates|));
    }
    forall i, j | 0 <= i < j < |order| ensures order[i] != order[j] {
      if order[i] == order[j] {
        assert multiset(order)[order[i]] >= 2 by {
          MultiplicityTwo(order, i, j);
        }
        RowsOnce(|dates|, order[i]);
        assert false;
      }
    }
  }

  /** The dates taken in a date order ascend. */
  lemma DatesInOrder(order: seq<nat>, dates: seq<Value>, sorted: seq<Value>)
    requires DateColumn(dates) && IsDateOrder(order, dates)
    requires |sorted| == |order| && forall i :: 0 <= i < |sorted| ==> order[i] < |dates| && sorted[i] == dates[order[i]]
    ensures DateColumn(sorted) && SortedBy(Rows(|sorted|), sorted)
  {
    var rows := Rows(|sorted|);
    forall i, j | 0 <= i < j < |rows| ensures DateLe(sorted[rows[i]], sorted[rows[j]]) {
      assert rows[i] == i && rows[j] == j;
    }
  }

  /** A value at two positions occurs at least twice. */
  lemma {:induction false} MultiplicityTwo(s: seq<nat>, i: nat, j: nat)
    requires 0 <= i < j < |s| && s[i] == s[j]
    ensures multiset(s)[s[i]] >= 2
  {
    assert s == s[..j] + [s[j]] + s[j + 1..];
    assert s[i] == s[..j][i];
    assert multiset(s) == multiset(s[..j]) + multiset{s[j]} + multiset(s[j + 1..]);
  }

  /** Each row number occurs once in `Rows(n)`. */
  lemma {:induction false} RowsOnce(n: nat, k: nat)
    ensures multiset(Rows(n))[k] <= 1
  {
    if n > 0 {
      assert Rows(n) == Rows(n - 1) + [n - 1];
      RowsOnce(n - 1, k);
      if k == n - 1 {
        assert k !in Rows(n - 1);
      }
    }
  }

  /** The frame's columns with their rows taken in `order`. */
  function Reorder(cols: Columns, n: nat, order: seq<nat>): (r: Columns)
    requires Rectangular(cols, n) && |order| == n && forall i :: 0 <= i < n ==> order[i] < n
    ensures Rectangular(r, n) && r.Keys == cols.Keys
    ensures forall c, i :: c in r && 0 <= i < n ==> r[c][i] == cols[c][order[i]]
  {
    map c | c in cols :: seq(n, i requires 0 <= i < n => cols[c][order[i]])
  }
}
