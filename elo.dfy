/**
 * The Elo state machine of feature_engineering.py's `add_elo_features`: every team
 * starts at 1500, each match records both sides' ratings as they stand before it,
 * and then moves them by k times the surprise of the result.
 */
module Elo {
  import opened Common
  import opened Values
  import opened Frames

  /** The starting rating of every team. */
  const InitialRating: real := 1500.0

  /** A win probability strictly between 0 and 1. */
  type Probability = p: real | 0.0 < p < 1.0 witness 0.5

  /**
   * The expected score of a side rated `d` points above its opponent,
   * `1 / (1 + 10 ** (-d / 400))`; the power is floating point and is not modelled.
   */
  type Expectation = real -> Probability

  /** What the rating loop reads of a row. */
  datatype Fixture = Fixture(home: Value, away: Value, homeGoals: Value, awayGoals: Value)

  /** A row the loop can play: goals are numbers or NaN. */
  predicate Playable(f: Fixture)
  {
    IsNumeric(f.homeGoals) && IsNumeric(f.awayGoals)
  }

  /**
   * The actual scores: a strict win is (1, 0) or (0, 1); anything else, equal goals
   * or a NaN that makes both comparisons false, is a draw (0.5, 0.5).
   */
  function Outcome(f: Fixture): (s: (real, real))
    requires Playable(f)
    ensures s.0 + s.1 == 1.0
    ensures s.0 == 1.0 <==> Less(f.awayGoals, f.homeGoals)
    ensures s.1 == 1.0 <==> Less(f.homeGoals, f.awayGoals)
  {
    if Less(f.awayGoals, f.homeGoals) then (1.0, 0.0)
    else if Less(f.homeGoals, f.awayGoals) then (0.0, 1.0)
    else (0.5, 0.5)
  }

  /** The expected score of the home side, from the ratings before the match. */
  function ExpectedHome(elo: map<Value, real>, f: Fixture, expectation: Expectation): (e: real)
    requires f.home in elo && f.away in elo
    ensures 0.0 < e < 1.0
  {
    expectation(elo[f.home] - elo[f.away]) as real
  }

  /** `k * (score_home - exp_home)`. */
  function HomeGain(elo: map<Value, real>, f: Fixture, k: real, expectation: Expectation): real
    requires Playable(f) && f.home in elo && f.away in elo
  {
    k * (Outcome(f).0 - ExpectedHome(elo, f, expectation))
  }

  /** `k * (score_away - exp_away)` with `exp_away = 1 - exp_home`. */
  function AwayGain(elo: map<Value, real>, f: Fixture, k: real, expectation: Expectation): real
    requires Playable(f) && f.home in elo && f.away in elo
  {
    k * (Outcome(f).1 - (1.0 - ExpectedHome(elo, f, expectation)))
  }

  /**
   * The ratings after one match: home first, then away, both gains computed from
   * the ratings before the match.
   */
  function Step(elo: map<Value, real>, f: Fixture, k: real, expectation: Expectation): (r: map<Value, real>)
    requires Playable(f) && f.home in elo && f.away in elo
    ensures r.Keys == elo.Keys
  {
    var afterHome := elo[f.home := elo[f.home] + HomeGain(elo, f, k, expectation)];
    afterHome[f.away := afterHome[f.away] + AwayGain(elo, f, k, expectation)]
  }

  /** Every row can be played and names teams that have a rating. */
  predicate Rated(elo: map<Value, real>, fixtures: seq<Fixture>)
  {
    forall i :: 0 <= i < |fixtures| ==> Playable(fixtures[i]) && fixtures[i].home in elo && fixtures[i].away in elo
  }

  /** The ratings after the given matches, played in order. */
  function RatingsAfter(elo: map<Value, real>, fixtures: seq<Fixture>, k: real, expectation: Expectation): (r: map<Value, real>)
    requires Rated(elo, fixtures)
    ensures r.Keys == elo.Keys
    decreases |fixtures|
  {
    if fixtures == [] then elo
    else
      var front := fixtures[..|fixtures| - 1];
      assert Rated(elo, front) by {
        forall i | 0 <= i < |front| ensures Playable(front[i]) && front[i].home in elo && front[i].away in elo {
          assert front[i] == fixtures[i];
        }
      }
      var before := RatingsAfter(elo, front, k, expectation);
      Step(before, fixtures[|fixtures| - 1], k, expectation)
  }

  /** `pd.concat([df["HomeTeam"], df["AwayTeam"]]).unique()`, as a set. */
  function Teams(fixtures: seq<Fixture>): (teams: set<Value>)
    ensures forall i :: 0 <= i < |fixtures| ==> fixtures[i].home in teams && fixtures[i].away in teams
  {
    (set i | 0 <= i < |fixtures| :: fixtures[i].home) + (set i | 0 <= i < |fixtures| :: fixtures[i].away)
  }

  /** `{team: 1500 for team in teams}`. */
  function InitialRatings(fixtures: seq<Fixture>): (elo: map<Value, real>)
    ensures elo.Keys == Teams(fixtures)
    ensures forall t :: t in elo ==> elo[t] == InitialRating
  {
    map t | t in Teams(fixtures) :: InitialRating
  }

  /** Every row's goals are numbers or NaN. */
  predicate AllPlayable(fixtures: seq<Fixture>)
  {
    forall j :: 0 <= j < |fixtures| ==> Playable(fixtures[j])
  }

  /** The starting ratings cover every prefix of the table. */
  lemma InitialRated(fixtures: seq<Fixture>, i: nat)
    requires i <= |fixtures| && AllPlayable(fixtures)
    ensures Rated(InitialRatings(fixtures), fixtures[..i])
  {
    var init := InitialRatings(fixtures);
    forall j | 0 <= j < i
      ensures Playable(fixtures[..i][j]) && fixtures[..i][j].home in init && fixtures[..i][j].away in init
    {
      assert fixtures[..i][j] == fixtures[j];
    }
  }

  /** The ratings in force when row `i` is reached. */
  function Before(fixtures: seq<Fixture>, i: nat, k: real, expectation: Expectation): (elo: map<Value, real>)
    requires i <= |fixtures| && AllPlayable(fixtures)
    ensures elo.Keys == Teams(fixtures)
  {
    InitialRated(fixtures, i);
    RatingsAfter(InitialRatings(fixtures), fixtures[..i], k, expectation)
  }

  /** The home and away ratings recorded on row `i`: those before its match. */
  function PreMatch(fixtures: seq<Fixture>, i: nat, k: real, expectation: Expectation): (r: (real, real))
    requires i < |fixtures| && AllPlayable(fixtures)
  {
    var before := Before(fixtures, i, k, expectation);
    (before[fixtures[i].home], before[fixtures[i].away])
  }

  /** One more row: the ratings before row `i + 1` are those before row `i` after its match. */
  lemma BeforeNext(fixtures: seq<Fixture>, i: nat, k: real, expectation: Expectation)
    requires i < |fixtures| && AllPlayable(fixtures)
    ensures Before(fixtures, i + 1, k, expectation) == Step(Before(fixtures, i, k, expectation), fixtures[i], k, expectation)
  {
    assert fixtures[..i + 1][..i] == fixtures[..i];
    assert fixtures[..i + 1][i] == fixtures[i];
  }

  // ---------------------------------------------------------------------------
  // One match
  // ---------------------------------------------------------------------------

  /** What the home side gains the away side loses. */
  lemma StepDeltas(elo: map<Value, real>, f: Fixture, k: real, expectation: Expectation)
    requires Playable(f) && f.home in elo && f.away in elo
    ensures HomeGain(elo, f, k, expectation) + AwayGain(elo, f, k, expectation) == 0.0
  {
    var s := Outcome(f);
    var e := ExpectedHome(elo, f, expectation);
    assert s.1 - (1.0 - e) == -(s.0 - e);
  }

  /** A match is zero-sum: what one side gains the other loses. */
  lemma StepZeroSum(elo: map<Value, real>, f: Fixture, k: real, expectation: Expectation)
    requires Playable(f) && f.home in elo && f.away in elo && f.home != f.away
    ensures var r := Step(elo, f, k, expectation);
            r[f.home] + r[f.away] == elo[f.home] + elo[f.away]
  {
    StepDeltas(elo, f, k, expectation);
  }

  /** A team listed against itself keeps its rating: the two updates cancel. */
  lemma StepSelf(elo: map<Value, real>, f: Fixture, k: real, expectation: Expectation)
    requires Playable(f) && f.home in elo && f.home == f.away
    ensures Step(elo, f, k, expectation) == elo
  {
    StepDeltas(elo, f, k, expectation);
    var r := Step(elo, f, k, expectation);
    assert r[f.home] == elo[f.home];
    assert forall t :: t in elo ==> r[t] == elo[t];
  }

  /** Only the two sides of the match change rating. */
  lemma StepOthers(elo: map<Value, real>, f: Fixture, k: real, expectation: Expectation, t: Value)
    requires Playable(f) && f.home in elo && f.away in elo && t in elo
    requires t != f.home && t != f.away
    ensures Step(elo, f, k, expectation)[t] == elo[t]
  {
  }

  /** With a positive k, the winner, home or away, gains strictly less than k and the loser loses it. */
  lemma StepWinner(elo: map<Value, real>, f: Fixture, k: real, expectation: Expectation)
    requires Playable(f) && f.home in elo && f.away in elo && f.home != f.away && k > 0.0
    ensures Less(f.awayGoals, f.homeGoals) ==> var r := Step(elo, f, k, expectation);
              elo[f.home] < r[f.home] < elo[f.home] + k && elo[f.away] - k < r[f.away] < elo[f.away]
    ensures Less(f.homeGoals, f.awayGoals) ==> var r := Step(elo, f, k, expectation);
              elo[f.away] < r[f.away] < elo[f.away] + k && elo[f.home] - k < r[f.home] < elo[f.home]
  {
    if Less(f.awayGoals, f.homeGoals) {
      HomeWinGains(elo, f, k, expectation);
    } else if Less(f.homeGoals, f.awayGoals) {
      AwayWinGains(elo, f, k, expectation);
    }
  }

  /** A home win: the home gain is `k * (1 - e)` and the away gain its negation. */
  lemma HomeWinGains(elo: map<Value, real>, f: Fixture, k: real, expectation: Expectation)
    requires Playable(f) && f.home in elo && f.away in elo && k > 0.0
    requires Less(f.awayGoals, f.homeGoals)
    ensures 0.0 < HomeGain(elo, f, k, expectation) < k
    ensures AwayGain(elo, f, k, expectation) == -HomeGain(elo, f, k, expectation)
  {
    var s := Outcome(f);
    assert s.0 == 1.0 && s.1 == 0.0;
    var e := ExpectedHome(elo, f, expectation);
    WinnerShare(k, 1.0 - e, 1.0 - e, HomeGain(elo, f, k, expectation), AwayGain(elo, f, k, expectation));
  }

  /** An away win: the away gain is `k * e` and the home gain its negation. */
  lemma AwayWinGains(elo: map<Value, real>, f: Fixture, k: real, expectation: Expectation)
    requires Playable(f) && f.home in elo && f.away in elo && k > 0.0
    requires Less(f.homeGoals, f.awayGoals)
    ensures 0.0 < AwayGain(elo, f, k, expectation) < k
    ensures HomeGain(elo, f, k, expectation) == -AwayGain(elo, f, k, expectation)
  {
    var s := Outcome(f);
    assert s.0 == 0.0 && s.1 == 1.0;
    var e := ExpectedHome(elo, f, expectation);
    WinnerShare(k, e, 1.0 - (1.0 - e), AwayGain(elo, f, k, expectation), HomeGain(elo, f, k, expectation));
  }

  /** The winner's gain `k * y`, with `y == x`, lies in `(0, k)` and the loser's `k * (0 - x)` is its negation. */
  lemma WinnerShare(k: real, x: real, y: real, winner: real, loser: real)
    requires k > 0.0 && 0.0 < x < 1.0 && y == x
    requires winner == k * y && loser == k * (0.0 - x)
    ensures 0.0 < winner < k && loser == -winner
  {
    SharePositive(k, y, winner);
    ShareBelow(k, y, winner);
    ShareNegated(k, x, y, winner, loser);
  }

  // The two bounds on `k * x` go through separate lemmas: together they defeat the
  // solver's nonlinear arithmetic.
  lemma SharePositive(k: real, x: real, p: real)
    requires k > 0.0 && 0.0 < x < 1.0 && p == k * x
    ensures 0.0 < p
  {
    Shrink(k, x);
  }

  lemma ShareBelow(k: real, x: real, p: real)
    requires k > 0.0 && 0.0 < x < 1.0 && p == k * x
    ensures p < k
  {
    Shrink(k, x);
  }

  lemma ShareNegated(k: real, x: real, y: real, winner: real, loser: real)
    requires y == x && winner == k * y && loser == k * (0.0 - x)
    ensures loser == -winner
  {
    Congruent(k, 0.0 - x, -y);
    Negate(k, y);
  }

  /** Multiplying by a negated factor negates the product. */
  lemma Negate(k: real, x: real)
    ensures k * -x == -(k * x)
  {
  }

  /** Whatever the result, no rating moves by k or more. */
  lemma StepBounded(elo: map<Value, real>, f: Fixture, k: real, expectation: Expectation)
    requires Playable(f) && f.home in elo && f.away in elo && f.home != f.away && k > 0.0
    ensures var r := Step(elo, f, k, expectation);
            elo[f.home] - k < r[f.home] < elo[f.home] + k && elo[f.away] - k < r[f.away] < elo[f.away] + k
  {
    var s := Outcome(f);
    var e := ExpectedHome(elo, f, expectation);
    GainBounded(k, s.0 - e);
    GainBounded(k, s.1 - (1.0 - e));
  }

  /** `k * x` lies strictly between `-k` and `k` for `-1 < x < 1`. */
  lemma GainBounded(k: real, x: real)
    requires k > 0.0 && -1.0 < x < 1.0
    ensures -k < k * x < k
  {
    if x < 0.0 {
      Shrink(k, -x);
    } else {
      Shrink(k, x);
    }
  }

  /** `k * x` stays below `k` for `0 <= x < 1`. */
  lemma Shrink(k: real, x: real)
    requires k > 0.0 && 0.0 <= x < 1.0
    ensures 0.0 <= k * x < k && (x > 0.0 ==> k * x > 0.0)
  {
  }

  /**
   * A draw between equally rated sides changes nothing, provided the expectation
   * curve gives an even match one half (as `1 / (1 + 10 ** 0)` does).
   */
  lemma StepEvenDraw(elo: map<Value, real>, f: Fixture, k: real, expectation: Expectation)
    requires Playable(f) && f.home in elo && f.away in elo
    requires expectation(0.0) as real == 0.5 && elo[f.home] == elo[f.away]
    requires !Less(f.homeGoals, f.awayGoals) && !Less(f.awayGoals, f.homeGoals)
    ensures Step(elo, f, k, expectation) == elo
  {
    var r := Step(elo, f, k, expectation);
    assert forall t :: t in elo ==> r[t] == elo[t];
  }

  // ---------------------------------------------------------------------------
  // The whole table
  // ---------------------------------------------------------------------------

  /** Team `t` plays in none of the matches. */
  predicate Idle(fixtures: seq<Fixture>, t: Value)
  {
    forall j :: 0 <= j < |fixtures| ==> fixtures[j].home != t && fixtures[j].away != t
  }

  /** A team that does not play keeps its rating. */
  lemma {:induction false} IdleUnchanged(elo: map<Value, real>, fixtures: seq<Fixture>, k: real,
                                         expectation: Expectation, t: Value)
    requires Rated(elo, fixtures) && t in elo && Idle(fixtures, t)
    ensures RatingsAfter(elo, fixtures, k, expectation)[t] == elo[t]
    decreases |fixtures|
  {
    if fixtures != [] {
      var front := fixtures[..|fixtures| - 1];
      assert Rated(elo, front) by {
        forall i | 0 <= i < |front| ensures Playable(front[i]) && front[i].home in elo && front[i].away in elo {
          assert front[i] == fixtures[i];
        }
      }
      assert Idle(front, t) by {
        forall i | 0 <= i < |front| ensures front[i].home != t && front[i].away != t {
          assert front[i] == fixtures[i];
        }
      }
      IdleUnchanged(elo, front, k, expectation, t);
    }
  }

  /** A side's recorded rating is 1500 until its first match. */
  lemma FirstAppearance(fixtures: seq<Fixture>, i: nat, k: real, expectation: Expectation)
    requires i < |fixtures| && AllPlayable(fixtures)
    ensures Idle(fixtures[..i], fixtures[i].home) ==> PreMatch(fixtures, i, k, expectation).0 == InitialRating
    ensures Idle(fixtures[..i], fixtures[i].away) ==> PreMatch(fixtures, i, k, expectation).1 == InitialRating
  {
    var init := InitialRatings(fixtures);
    InitialRated(fixtures, i);
    if Idle(fixtures[..i], fixtures[i].home) {
      IdleUnchanged(init, fixtures[..i], k, expectation, fixtures[i].home);
    }
    if Idle(fixtures[..i], fixtures[i].away) {
      IdleUnchanged(init, fixtures[..i], k, expectation, fixtures[i].away);
    }
  }

  /** No team appears twice. */
  predicate Distinct(teams: seq<Value>)
  {
    forall i, j :: 0 <= i < j < |teams| ==> teams[i] != teams[j]
  }

  /** The sum of the ratings of `teams`. */
  function Total(elo: map<Value, real>, teams: seq<Value>): real
    requires forall i :: 0 <= i < |teams| ==> teams[i] in elo
  {
    if teams == [] then 0.0 else Total(elo, teams[..|teams| - 1]) + elo[teams[|teams| - 1]]
  }

  /** Changing one rating changes the total by the difference, if the team is listed once. */
  lemma {:induction false} TotalUpdate(elo: map<Value, real>, teams: seq<Value>, a: Value, x: real)
    requires forall i :: 0 <= i < |teams| ==> teams[i] in elo
    requires a in elo && Distinct(teams)
    ensures a in teams ==> Total(elo[a := x], teams) == Total(elo, teams) - elo[a] + x
    ensures a !in teams ==> Total(elo[a := x], teams) == Total(elo, teams)
  {
    if teams != [] {
      var front := teams[..|teams| - 1];
      var last := teams[|teams| - 1];
      assert forall i :: 0 <= i < |front| ==> front[i] == teams[i];
      assert a in teams <==> a in front || a == last;
      assert a == last ==> a !in front;
      TotalUpdate(elo, front, a, x);
    }
  }

  /** `teams` lists every rated team exactly once. */
  predicate Enumerates(teams: seq<Value>, elo: map<Value, real>)
  {
    Distinct(teams) && (forall i :: 0 <= i < |teams| ==> teams[i] in elo) && (forall t :: t in elo ==> t in teams)
  }

  /** Raising one listed rating by `d` raises the total by `d`. */
  lemma TotalShift(elo: map<Value, real>, teams: seq<Value>, a: Value, d: real)
    requires Enumerates(teams, elo) && a in elo
    ensures Enumerates(teams, elo[a := elo[a] + d])
    ensures Total(elo[a := elo[a] + d], teams) == Total(elo, teams) + d
  {
    TotalUpdate(elo, teams, a, elo[a] + d);
  }

  /** A match leaves the sum of all ratings unchanged. */
  lemma StepConserves(elo: map<Value, real>, f: Fixture, k: real, expectation: Expectation, teams: seq<Value>)
    requires Playable(f) && f.home in elo && f.away in elo && Enumerates(teams, elo)
    ensures Total(Step(elo, f, k, expectation), teams) == Total(elo, teams)
  {
    var d1 := HomeGain(elo, f, k, expectation);
    var d2 := AwayGain(elo, f, k, expectation);
    TotalShift(elo, teams, f.home, d1);
    TotalShift(elo[f.home := elo[f.home] + d1], teams, f.away, d2);
    StepDeltas(elo, f, k, expectation);
  }

  /** Ratings are only passed between teams: their sum never changes. */
  lemma {:induction false} RatingsConserved(elo: map<Value, real>, fixtures: seq<Fixture>, k: real,
                                            expectation: Expectation, teams: seq<Value>)
    requires Rated(elo, fixtures) && Enumerates(teams, elo)
    ensures Total(RatingsAfter(elo, fixtures, k, expectation), teams) == Total(elo, teams)
    decreases |fixtures|
  {
    if fixtures != [] {
      var front := fixtures[..|fixtures| - 1];
      assert Rated(elo, front) by {
        forall i | 0 <= i < |front| ensures Playable(front[i]) && front[i].home in elo && front[i].away in elo {
          assert front[i] == fixtures[i];
        }
      }
      RatingsConserved(elo, front, k, expectation, teams);
      var before := RatingsAfter(elo, front, k, expectation);
      StepConserves(before, fixtures[|fixtures| - 1], k, expectation, teams);
    }
  }

  /** Ratings that are all 1500 total 1500 per team. */
  lemma {:induction false} TotalInitial(elo: map<Value, real>, teams: seq<Value>)
    requires forall i :: 0 <= i < |teams| ==> teams[i] in elo && elo[teams[i]] == InitialRating
    ensures Total(elo, teams) == InitialRating * (|teams| as real)
  {
    if teams != [] {
      TotalInitial(elo, teams[..|teams| - 1]);
    }
  }

  /** At every row, the ratings in force average 1500 over all teams of the table. */
  lemma AverageStaysInitial(fixtures: seq<Fixture>, i: nat, k: real, expectation: Expectation, teams: seq<Value>)
    requires i <= |fixtures| && AllPlayable(fixtures)
    requires Enumerates(teams, InitialRatings(fixtures))
    ensures Total(Before(fixtures, i, k, expectation), teams) == InitialRating * (|teams| as real)
  {
    var init := InitialRatings(fixtures);
    InitialRated(fixtures, i);
    RatingsConserved(init, fixtures[..i], k, expectation, teams);
    TotalInitial(init, teams);
  }

  // ---------------------------------------------------------------------------
  // add_elo_features
  // ---------------------------------------------------------------------------

  /** The frame has the four columns the loop reads, with numeric goals. */
  predicate EloReady(cols: Columns, n: nat)
  {
    && Rectangular(cols, n)
    && "HomeTeam" in cols && "AwayTeam" in cols && "FTHG" in cols && "FTAG" in cols
    && NumericColumn(cols["FTHG"]) && NumericColumn(cols["FTAG"])
  }

  /** The rows as `iterrows` visits them. */
  function FixturesOf(cols: Columns, n: nat): (fixtures: seq<Fixture>)
    requires EloReady(cols, n)
    ensures |fixtures| == n && AllPlayable(fixtures)
  {
    seq(n, i requires 0 <= i < n => Fixture(cols["HomeTeam"][i], cols["AwayTeam"][i], cols["FTHG"][i], cols["FTAG"][i]))
  }

  /** The ratings recorded for the first `n` rows: the home side's, or the away side's. */
  function RecordedColumn(fixtures: seq<Fixture>, n: nat, k: real, expectation: Expectation, home: bool): (col: seq<Value>)
    requires n <= |fixtures| && AllPlayable(fixtures)
    ensures |col| == n
    ensures forall j :: 0 <= j < n ==> col[j] == Num(if home then PreMatch(fixtures, j, k, expectation).0
                                                     else PreMatch(fixtures, j, k, expectation).1)
  {
    if n == 0 then []
    else
      var r := PreMatch(fixtures, n - 1, k, expectation);
      RecordedColumn(fixtures, n - 1, k, expectation, home) + [Num(if home then r.0 else r.1)]
  }

  /** The columns `add_elo_features` writes. */
  function EloTargets(): set<string>
  {
    {"elo_home", "elo_away", "elo_diff"}
  }

  /** The frame after `add_elo_features`: the recorded pre-match ratings and their difference. */
  function EloColumns(cols: Columns, n: nat, k: real, expectation: Expectation): (r: Columns)
    requires EloReady(cols, n)
    ensures Rectangular(r, n) && r.Keys == cols.Keys + EloTargets()
    ensures forall c :: c in cols && c !in EloTargets() ==> r[c] == cols[c]
    ensures forall c :: c in EloTargets() ==> NumericColumn(r[c])
  {
    var fixtures := FixturesOf(cols, n);
    var homes := RecordedColumn(fixtures, n, k, expectation, true);
    var aways := RecordedColumn(fixtures, n, k, expectation, false);
    EloColumnsShape(cols, n, homes, aways);
    cols["elo_home" := homes]["elo_away" := aways]["elo_diff" := Difference(homes, aways)]
  }

  /** Adding the three Elo columns to a frame keeps it rectangular and leaves the rest. */
  lemma EloColumnsShape(cols: Columns, n: nat, homes: seq<Value>, aways: seq<Value>)
    requires Rectangular(cols, n) && |homes| == n && |aways| == n
    requires NumericColumn(homes) && NumericColumn(aways)
    ensures var r := cols["elo_home" := homes]["elo_away" := aways]["elo_diff" := Difference(homes, aways)];
            && Rectangular(r, n) && r.Keys == cols.Keys + EloTargets()
            && (forall c :: c in cols && c !in EloTargets() ==> r[c] == cols[c])
            && (forall c :: c in EloTargets() ==> NumericColumn(r[c]))
  {
    var diff := Difference(homes, aways);
    var r := cols["elo_home" := homes]["elo_away" := aways]["elo_diff" := diff];
    assert r["elo_home"] == homes && r["elo_away"] == aways && r["elo_diff"] == diff by {
      assert "elo_home"[4] != "elo_away"[4] && "elo_home"[4] != "elo_diff"[4] && "elo_away"[4] != "elo_diff"[4];
    }
    assert forall c :: c in EloTargets() ==> c == "elo_home" || c == "elo_away" || c == "elo_diff";
  }

  /** The three Elo columns hold the recorded home ratings, away ratings and their difference. */
  lemma EloColumnsRecorded(cols: Columns, n: nat, k: real, expectation: Expectation)
    requires EloReady(cols, n)
    ensures var fixtures := FixturesOf(cols, n);
            var homes := RecordedColumn(fixtures, n, k, expectation, true);
            var aways := RecordedColumn(fixtures, n, k, expectation, false);
            var r := EloColumns(cols, n, k, expectation);
            r["elo_home"] == homes && r["elo_away"] == aways && r["elo_diff"] == Difference(homes, aways)
  {
    assert "elo_home"[4] != "elo_away"[4] && "elo_home"[4] != "elo_diff"[4] && "elo_away"[4] != "elo_diff"[4];
  }

  /** Row `i` of `elo_home` and `elo_away`: both sides' ratings before its match. */
  lemma EloColumnsAt(cols: Columns, n: nat, k: real, expectation: Expectation, i: nat)
    requires EloReady(cols, n) && i < n
    ensures var ratings := PreMatch(FixturesOf(cols, n), i, k, expectation);
            var r := EloColumns(cols, n, k, expectation);
            r["elo_home"][i] == Num(ratings.0) && r["elo_away"][i] == Num(ratings.1)
  {
    EloColumnsRecorded(cols, n, k, expectation);
  }

  /** `elo_diff` is `elo_home - elo_away`, column for column. */
  lemma EloDiffColumn(cols: Columns, n: nat, k: real, expectation: Expectation)
    requires EloReady(cols, n)
    ensures var r := EloColumns(cols, n, k, expectation);
            r["elo_diff"] == Difference(r["elo_home"], r["elo_away"])
  {
    EloColumnsRecorded(cols, n, k, expectation);
  }

  /** Row `i` of `elo_diff` is the home side's rating less the away side's. */
  lemma EloDiffAt(cols: Columns, n: nat, k: real, expectation: Expectation, i: nat)
    requires EloReady(cols, n) && i < n
    ensures var r := EloColumns(cols, n, k, expectation);
            && "elo_home" in r && "elo_away" in r && "elo_diff" in r
            && |r["elo_home"]| == |r["elo_away"]| == |r["elo_diff"]| == n
            && r["elo_home"][i].Num? && r["elo_away"][i].Num?
            && r["elo_diff"][i] == Sub(r["elo_home"][i], r["elo_away"][i])
  {
    EloDiffColumn(cols, n, k, expectation);
    EloColumnsAt(cols, n, k, expectation, i);
  }

  /** The ratings row `i` records are read from the ratings in force. */
  lemma RecordedRatings(fixtures: seq<Fixture>, i: nat, k: real, expectation: Expectation, elo: map<Value, real>)
    requires i < |fixtures| && AllPlayable(fixtures) && elo == Before(fixtures, i, k, expectation)
    ensures PreMatch(fixtures, i, k, expectation) == (elo[fixtures[i].home], elo[fixtures[i].away])
  {
  }

  /** One iteration's rating update: the home side's, then the away side's. */
  method PlayMatch(elo: map<Value, real>, f: Fixture, k: real, expectation: Expectation) returns (after: map<Value, real>)
    requires Playable(f) && f.home in elo && f.away in elo
    ensures after == Step(elo, f, k, expectation)
  {
    var scoreHome, scoreAway;
    if Less(f.awayGoals, f.homeGoals) {
      scoreHome, scoreAway := 1.0, 0.0;
    } else if Less(f.homeGoals, f.awayGoals) {
      scoreHome, scoreAway := 0.0, 1.0;
    } else {
      scoreHome, scoreAway := 0.5, 0.5;
    }
    var expHome := expectation(elo[f.home] - elo[f.away]) as real;
    var expAway := 1.0 - expHome;
    assert (scoreHome, scoreAway) == Outcome(f) && expHome == ExpectedHome(elo, f, expectation);
    Congruent(k, scoreAway - expAway, Outcome(f).1 - (1.0 - ExpectedHome(elo, f, expectation)));
    assert HomeGain(elo, f, k, expectation) == k * (scoreHome - expHome);
    assert AwayGain(elo, f, k, expectation) == k * (scoreAway - expAway);
    after := elo[f.home := elo[f.home] + k * (scoreHome - expHome)];
    after := after[f.away := after[f.away] + k * (scoreAway - expAway)];
    InlineStep(elo, f, k, expectation);
  }

  /** The two in-place updates, written with the gains, are one `Step`. */
  lemma InlineStep(elo: map<Value, real>, f: Fixture, k: real, expectation: Expectation)
    requires Playable(f) && f.home in elo && f.away in elo
    ensures var afterHome := elo[f.home := elo[f.home] + HomeGain(elo, f, k, expectation)];
            afterHome[f.away := afterHome[f.away] + AwayGain(elo, f, k, expectation)] == Step(elo, f, k, expectation)
  {
  }

  /** Equal factors give equal products. */
  lemma Congruent(k: real, x: real, y: real)
    requires x == y
    ensures k * x == k * y
  {
  }

  /** The pre-match ratings of every row, in row order: the loop of `add_elo_features`. */
  method PlayTable(fixtures: seq<Fixture>, k: real, expectation: Expectation) returns (eloHome: seq<Value>, eloAway: seq<Value>)
    requires AllPlayable(fixtures)
    ensures eloHome == RecordedColumn(fixtures, |fixtures|, k, expectation, true)
    ensures eloAway == RecordedColumn(fixtures, |fixtures|, k, expectation, false)
  {
    var elo := InitialRatings(fixtures);
    eloHome, eloAway := [], [];
    assert fixtures[..0] == [];
    for i := 0 to |fixtures|
      invariant elo == Before(fixtures, i, k, expectation)
      invariant eloHome == RecordedColumn(fixtures, i, k, expectation, true)
      invariant eloAway == RecordedColumn(fixtures, i, k, expectation, false)
    {
      var f := fixtures[i];
      RecordedRatings(fixtures, i, k, expectation, elo);
      eloHome := eloHome + [Num(elo[f.home])];
      eloAway := eloAway + [Num(elo[f.away])];
      BeforeNext(fixtures, i, k, expectation);
      elo := PlayMatch(elo, f, k, expectation);
    }
  }

  /** `add_elo_features`: the rating loop, then the three new columns. */
  method AddEloFeatures(df: Frame, k: real, expectation: Expectation)
    requires df.Valid() && EloReady(df.columns, df.rows)
    modifies df
    ensures df.Valid() && df.rows == old(df.rows)
    ensures df.columns == EloColumns(old(df.columns), df.rows, k, expectation)
  {
    var n := df.rows;
    var fixtures := FixturesOf(df.columns, n);
    var eloHome, eloAway := PlayTable(fixtures, k, expectation);
    var eloDiff := Difference(eloHome, eloAway);
    df.Assign("elo_home", eloHome);
    df.Assign("elo_away", eloAway);
    df.Assign("elo_diff", eloDiff);
  }
}
