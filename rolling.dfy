/**
 * The trailing team average of feature_engineering.py's `rolling_feature`: rows are
 * grouped by a team column, each group's values are shifted down one row and a
 * window of W is averaged, so a row sees only the W previous appearances of its
 * team in the same role.
 */
module Rolling {
  import opened Common
  import opened Values

  /** The values of `team`'s rows before row `i`, in row order. */
  function History(teams: seq<Value>, vals: seq<Value>, team: Value, i: nat): (h: seq<Value>)
    requires |vals| == |teams| && i <= |teams|
    ensures |h| <= i
    decreases i
  {
    if i == 0 then []
    else
      var h := History(teams, vals, team, i - 1);
      if teams[i - 1] == team then h + [vals[i - 1]] else h
  }

  /** The numbers of a window whose every cell is a number. */
  function Numbers(window: seq<Value>): (xs: seq<real>)
    requires forall k :: 0 <= k < |window| ==> window[k].Num?
    ensures |xs| == |window| && forall k :: 0 <= k < |xs| ==> xs[k] == window[k].x
  {
    seq(|window|, k requires 0 <= k < |window| => window[k].x)
  }

  /** `rolling(w).mean()` at a full window: NaN when any cell is NaN (fewer than w observations). */
  function WindowMean(window: seq<Value>, w: nat): (r: Value)
    requires w >= 1 && |window| == w
    ensures r.Missing? <==> exists k :: 0 <= k < w && !window[k].Num?
    ensures r.Num? ==> forall k :: 0 <= k < w ==> window[k].Num?
  {
    if forall k :: 0 <= k < w ==> window[k].Num? then Num(Sum(Numbers(window)) / (w as real))
    else Missing
  }

  /**
   * The rolling value of row `i`: NaN for a row without a team (groupby drops it) or
   * with fewer than `w` earlier appearances of its team; else the mean of the last `w`.
   */
  function RollingAt(teams: seq<Value>, vals: seq<Value>, w: nat, i: nat): (r: Value)
    requires w >= 1 && |vals| == |teams| && i < |teams|
    ensures r.Num? || r.Missing?
  {
    if teams[i].Missing? then Missing
    else
      var h := History(teams, vals, teams[i], i);
      if |h| < w then Missing else WindowMean(h[|h| - w..], w)
  }

  /** The column `rolling_feature` writes. */
  function RollingColumn(teams: seq<Value>, vals: seq<Value>, w: nat): (r: seq<Value>)
    requires w >= 1 && |vals| == |teams|
    ensures |r| == |teams| && FiniteOrMissing(r) && NumericColumn(r)
    ensures forall i :: 0 <= i < |r| ==> r[i] == RollingAt(teams, vals, w, i)
  {
    seq(|teams|, i requires 0 <= i < |teams| => RollingAt(teams, vals, w, i))
  }

  /** How many rows before `i` belong to `team`. */
  function Appearances(teams: seq<Value>, team: Value, i: nat): nat
    requires i <= |teams|
  {
    if i == 0 then 0 else Appearances(teams, team, i - 1) + (if teams[i - 1] == team then 1 else 0)
  }

  /** The history of a team has one value per earlier appearance. */
  lemma {:induction false} HistoryLength(teams: seq<Value>, vals: seq<Value>, team: Value, i: nat)
    requires |vals| == |teams| && i <= |teams|
    ensures |History(teams, vals, team, i)| == Appearances(teams, team, i)
  {
    if i > 0 {
      HistoryLength(teams, vals, team, i - 1);
    }
  }

  /** Until its team has appeared `w` times before, a row's rolling value is missing. */
  lemma RollingMissingEarly(teams: seq<Value>, vals: seq<Value>, w: nat, i: nat)
    requires w >= 1 && |vals| == |teams| && i < |teams|
    requires Appearances(teams, teams[i], i) < w
    ensures RollingAt(teams, vals, w, i).Missing?
  {
    HistoryLength(teams, vals, teams[i], i);
  }

  /**
   * The history depends only on the rows before `i`, and among them only on the
   * values of the team's own rows.
   */
  lemma {:induction false} HistoryDependsOnTeamRows(teams: seq<Value>, vals: seq<Value>,
                                                    teams': seq<Value>, vals': seq<Value>, team: Value, i: nat)
    requires |vals| == |teams| && |vals'| == |teams'| && i <= |teams| && i <= |teams'|
    requires teams[..i] == teams'[..i]
    requires forall j :: 0 <= j < i && teams[j] == team ==> vals[j] == vals'[j]
    ensures History(teams, vals, team, i) == History(teams', vals', team, i)
  {
    if i > 0 {
      assert teams[..i - 1] == teams[..i][..i - 1] && teams'[..i - 1] == teams'[..i][..i - 1];
      assert teams[i - 1] == teams[..i][i - 1] && teams'[i - 1] == teams'[..i][i - 1];
      HistoryDependsOnTeamRows(teams, vals, teams', vals', team, i - 1);
    }
  }

  /**
   * No lookahead and no other team: a row's rolling value is fixed by the teams of
   * the rows up to it and the values of its own team's earlier rows.  Its own value,
   * later rows and other teams' rows never contribute.
   */
  lemma RollingUsesOnlyEarlierTeamRows(teams: seq<Value>, vals: seq<Value>,
                                       teams': seq<Value>, vals': seq<Value>, w: nat, i: nat)
    requires w >= 1 && |vals| == |teams| && |vals'| == |teams'| && i < |teams| && i < |teams'|
    requires teams[..i + 1] == teams'[..i + 1]
    requires forall j :: 0 <= j < i && teams[j] == teams[i] ==> vals[j] == vals'[j]
    ensures RollingAt(teams, vals, w, i) == RollingAt(teams', vals', w, i)
  {
    assert teams[i] == teams[..i + 1][i] && teams'[i] == teams'[..i + 1][i];
    assert teams[..i] == teams[..i + 1][..i] && teams'[..i] == teams'[..i + 1][..i];
    HistoryDependsOnTeamRows(teams, vals, teams', vals', teams[i], i);
  }

  /** Every number among `vals` lies between `lo` and `hi`. */
  predicate Bounded(vals: seq<Value>, lo: real, hi: real)
  {
    forall j :: 0 <= j < |vals| && vals[j].Num? ==> lo <= vals[j].x <= hi
  }

  /** A history holds only values of the column, so it keeps the column's bounds. */
  lemma {:induction false} HistoryBounded(teams: seq<Value>, vals: seq<Value>, team: Value, i: nat, lo: real, hi: real)
    requires |vals| == |teams| && i <= |teams| && Bounded(vals, lo, hi)
    ensures Bounded(History(teams, vals, team, i), lo, hi)
  {
    if i > 0 {
      HistoryBounded(teams, vals, team, i - 1, lo, hi);
      var prev := History(teams, vals, team, i - 1);
      var h := History(teams, vals, team, i);
      forall k | 0 <= k < |h| && h[k].Num? ensures lo <= h[k].x <= hi {
        if k < |prev| {
          assert h[k] == prev[k];
        } else {
          assert h[k] == vals[i - 1];
        }
      }
    }
  }

  /** When a team's last `w` earlier values are all `c`, its rolling value is `c`. */
  lemma RollingSteady(teams: seq<Value>, vals: seq<Value>, w: nat, i: nat, c: real)
    requires w >= 1 && |vals| == |teams| && i < |teams| && !teams[i].Missing?
    requires var h := History(teams, vals, teams[i], i);
             |h| >= w && forall k :: |h| - w <= k < |h| ==> h[k] == Num(c)
    ensures RollingAt(teams, vals, w, i) == Num(c)
  {
    var h := History(teams, vals, teams[i], i);
    var window := h[|h| - w..];
    assert forall k :: 0 <= k < w ==> window[k] == h[|h| - w + k];
    assert forall k :: 0 <= k < w ==> window[k] == Num(c);
    var xs := Numbers(window);
    assert forall k :: 0 <= k < |xs| ==> xs[k] == c;
    SumConstant(xs, c);
    MeanOfCopies(w as real, c, Sum(xs));
    assert WindowMean(window, w) == Num(Sum(xs) / (w as real));
  }

  /** The mean of `n` copies of `c` is `c`. */
  lemma MeanOfCopies(n: real, c: real, total: real)
    requires n > 0.0 && total == n * c
    ensures total / n == c
  {
  }

  /** A sum of `n` copies of `c` is `n * c`. */
  lemma {:induction false} SumConstant(xs: seq<real>, c: real)
    requires forall k :: 0 <= k < |xs| ==> xs[k] == c
    ensures Sum(xs) == (|xs| as real) * c
  {
    if xs != [] {
      SumConstant(xs[..|xs| - 1], c);
    }
  }

  /** A rolling mean lies between the smallest and the largest value the column can hold. */
  lemma RollingBounds(teams: seq<Value>, vals: seq<Value>, w: nat, i: nat, lo: real, hi: real)
    requires w >= 1 && |vals| == |teams| && i < |teams|
    requires Bounded(vals, lo, hi)
    ensures var r := RollingAt(teams, vals, w, i);
            r.Num? ==> lo <= r.x <= hi
  {
    if !teams[i].Missing? {
      var h := History(teams, vals, teams[i], i);
      if |h| >= w {
        HistoryBounded(teams, vals, teams[i], i, lo, hi);
        var window := h[|h| - w..];
        assert forall k :: 0 <= k < w ==> window[k] == h[|h| - w + k];
        WindowMeanBounds(window, w, lo, hi);
      }
    }
  }

  lemma WindowMeanBounds(window: seq<Value>, w: nat, lo: real, hi: real)
    requires w >= 1 && |window| == w && Bounded(window, lo, hi)
    ensures var r := WindowMean(window, w);
            r.Num? ==> lo <= r.x <= hi
  {
    if forall k :: 0 <= k < w ==> window[k].Num? {
      var xs := Numbers(window);
      SumBounds(xs, lo, hi);
      MeanBounds(Sum(xs), w as real, lo, hi);
    }
  }

  lemma MeanBounds(total: real, n: real, lo: real, hi: real)
    requires n > 0.0 && n * lo <= total <= n * hi
    ensures lo <= total / n <= hi
  {
    assert total / n * n == total;
  }

  /** `n` values between `lo` and `hi` sum to between `n * lo` and `n * hi`. */
  lemma {:induction false} SumBounds(xs: seq<real>, lo: real, hi: real)
    requires forall k :: 0 <= k < |xs| ==> lo <= xs[k] <= hi
    ensures (|xs| as real) * lo <= Sum(xs) <= (|xs| as real) * hi
  {
    if xs != [] {
      SumBounds(xs[..|xs| - 1], lo, hi);
    }
  }
}
