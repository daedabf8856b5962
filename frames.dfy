/**
 * A pandas DataFrame as a mutable object: named columns of equal length.  Column
 * order and the row index are not modelled; rows are positions.
 */
module Frames {
  import opened Values

  type Columns = map<string, seq<Value>>

  /** Every column has `n` cells. */
  predicate Rectangular(cols: Columns, n: nat)
  {
    forall c :: c in cols ==> |cols[c]| == n
  }

  /** `a - b` on two columns, cell by cell. */
  function Difference(a: seq<Value>, b: seq<Value>): (diff: seq<Value>)
    requires |a| == |b| && NumericColumn(a) && NumericColumn(b)
    ensures |diff| == |a| && NumericColumn(diff)
    ensures forall i :: 0 <= i < |diff| && a[i].Num? && b[i].Num? ==> diff[i] == Num(a[i].x - b[i].x)
    ensures forall i :: 0 <= i < |diff| && (a[i].Missing? || b[i].Missing?) ==> diff[i].Missing?
  {
    seq(|a|, i requires 0 <= i < |a| => Sub(a[i], b[i]))
  }

  /** `replace([inf, -inf], nan)` then `fillna(0)` on every cell of every column. */
  function CleanColumns(cols: Columns): (r: Columns)
    ensures r.Keys == cols.Keys
    ensures forall c :: c in r ==> |r[c]| == |cols[c]|
    ensures forall c, i :: c in r && 0 <= i < |r[c]| ==> !r[c][i].Inf? && !r[c][i].Missing?
    ensures forall c, i :: c in r && 0 <= i < |r[c]| && !cols[c][i].Inf? && !cols[c][i].Missing? ==> r[c][i] == cols[c][i]
    ensures forall c, i :: c in r && 0 <= i < |r[c]| && (cols[c][i].Inf? || cols[c][i].Missing?) ==> r[c][i] == Num(0.0)
  {
    map c | c in cols :: seq(|cols[c]|, i requires 0 <= i < |cols[c]| => Clean(cols[c][i]))
  }

  class Frame {
    var columns: Columns
    var rows: nat

    ghost predicate Valid()
      reads this
    {
      Rectangular(columns, rows)
    }

    constructor (cols: Columns, n: nat)
      requires Rectangular(cols, n)
      ensures Valid() && columns == cols && rows == n
    {
      columns := cols;
      rows := n;
    }

    /** `df[name] = col`: adds the column, or overwrites it if present. */
    method Assign(name: string, col: seq<Value>)
      requires Valid() && |col| == rows
      modifies this
      ensures Valid() && rows == old(rows)
      ensures columns == old(columns)[name := col]
    {
      columns := columns[name := col];
    }

    /** `replace([inf, -inf], nan, inplace=True)` followed by `fillna(0, inplace=True)`. */
    method CleanAll()
      requires Valid()
      modifies this
      ensures Valid() && rows == old(rows)
      ensures columns == CleanColumns(old(columns))
    {
      columns := CleanColumns(columns);
    }
  }
}
