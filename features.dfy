/**
 * The column-adding steps of feature_engineering.py: team form and statistics
 * averages, the strength and discipline indices, and the bookmaker-odds
 * probabilities, each one a function of the columns plus a method that writes its
 * columns into the frame.
 */
module Features {
  import opened Values
  import opened Frames
  import opened Rolling

  // ---------------------------------------------------------------------------
  // rolling_feature
  // ---------------------------------------------------------------------------

  /** The team column exists and the value column holds finite numbers or NaN. */
  predicate RollingReady(cols: Columns, n: nat, teamCol: string, valueCol: string)
  {
    Rectangular(cols, n) && teamCol in cols && valueCol in cols && FiniteOrMissing(cols[valueCol])
  }

  /** `df[newCol] = groupby(teamCol)[valueCol].shift(1).rolling(w).mean()`. */
  method RollingFeature(df: Frame, teamCol: string, valueCol: string, newCol: string, w: nat)
    requires w >= 1 && df.Valid() && RollingReady(df.columns, df.rows, teamCol, valueCol)
    modifies df
    ensures df.Valid() && df.rows == old(df.rows)
    ensures df.columns == old(df.columns)[newCol := RollingColumn(old(df.columns)[teamCol], old(df.columns)[valueCol], w)]
  {
    df.Assign(newCol, RollingColumn(df.columns[teamCol], df.columns[valueCol], w));
  }

  // ---------------------------------------------------------------------------
  // add_form_features
  // ---------------------------------------------------------------------------

  /** The match columns the form averages read. */
  predicate FormReady(cols: Columns, n: nat)
  {
    && Rectangular(cols, n)
    && "HomeTeam" in cols && "AwayTeam" in cols && "FTHG" in cols && "FTAG" in cols
    && FiniteOrMissing(cols["FTHG"]) && FiniteOrMissing(cols["FTAG"])
  }

  /** The columns `add_form_features` writes. */
  function FormTargets(): set<string>
  {
    {"home_avg_goals_scored_7", "away_avg_goals_scored_7", "home_avg_goals_conceded_7",
     "away_avg_goals_conceded_7", "goal_diff_form_home", "goal_diff_form_away"}
  }

  /** Goals scored and conceded per team and role, and their difference. */
  function FormColumns(cols: Columns, n: nat, w: nat): (r: Columns)
    requires w >= 1 && FormReady(cols, n)
    ensures Rectangular(r, n) && r.Keys == cols.Keys + FormTargets()
    ensures forall c :: c in cols && c !in FormTargets() ==> r[c] == cols[c]
    ensures forall c :: c in FormTargets() ==> NumericColumn(r[c])
  {
    var scoredHome := RollingColumn(cols["HomeTeam"], cols["FTHG"], w);
    var scoredAway := RollingColumn(cols["AwayTeam"], cols["FTAG"], w);
    var concededHome := RollingColumn(cols["HomeTeam"], cols["FTAG"], w);
    var concededAway := RollingColumn(cols["AwayTeam"], cols["FTHG"], w);
    cols["home_avg_goals_scored_7" := scoredHome]["away_avg_goals_scored_7" := scoredAway]
        ["home_avg_goals_conceded_7" := concededHome]["away_avg_goals_conceded_7" := concededAway]
        ["goal_diff_form_home" := Difference(scoredHome, concededHome)]
        ["goal_diff_form_away" := Difference(scoredAway, concededAway)]
  }

  /** `add_form_features`: four rolling averages, then the two differences. */
  method AddFormFeatures(df: Frame, w: nat)
    requires w >= 1 && df.Valid() && FormReady(df.columns, df.rows)
    modifies df
    ensures df.Valid() && df.rows == old(df.rows)
    ensures df.columns == FormColumns(old(df.columns), df.rows, w)
  {
    RollingFeature(df, "HomeTeam", "FTHG", "home_avg_goals_scored_7", w);
    RollingFeature(df, "AwayTeam", "FTAG", "away_avg_goals_scored_7", w);
    RollingFeature(df, "HomeTeam", "FTAG", "home_avg_goals_conceded_7", w);
    RollingFeature(df, "AwayTeam", "FTHG", "away_avg_goals_conceded_7", w);
    df.Assign("goal_diff_form_home", Difference(df.columns["home_avg_goals_scored_7"], df.columns["home_avg_goals_conceded_7"]));
    df.Assign("goal_diff_form_away", Difference(df.columns["away_avg_goals_scored_7"], df.columns["away_avg_goals_conceded_7"]));
  }

  /**
   * No leakage: the home side's goal-difference form on row `i` is fixed by the
   * home teams of the rows up to `i` and the goals of the earlier rows; the
   * result of row `i` itself and every later row play no part.
   */
  lemma FormUsesOnlyThePast(cols: Columns, n: nat, cols': Columns, n': nat, w: nat, i: nat)
    requires w >= 1 && FormReady(cols, n) && FormReady(cols', n') && i < n && i < n'
    requires cols["HomeTeam"][..i + 1] == cols'["HomeTeam"][..i + 1]
    requires cols["FTHG"][..i] == cols'["FTHG"][..i] && cols["FTAG"][..i] == cols'["FTAG"][..i]
    ensures FormColumns(cols, n, w)["goal_diff_form_home"][i] == FormColumns(cols', n', w)["goal_diff_form_home"][i]
  {
    var teams, teams' := cols["HomeTeam"], cols'["HomeTeam"];
    forall j | 0 <= j < i ensures cols["FTHG"][j] == cols'["FTHG"][j] && cols["FTAG"][j] == cols'["FTAG"][j] {
      assert cols["FTHG"][j] == cols["FTHG"][..i][j] && cols'["FTHG"][j] == cols'["FTHG"][..i][j];
      assert cols["FTAG"][j] == cols["FTAG"][..i][j] && cols'["FTAG"][j] == cols'["FTAG"][..i][j];
    }
    RollingUsesOnlyEarlierTeamRows(teams, cols["FTHG"], teams', cols'["FTHG"], w, i);
    RollingUsesOnlyEarlierTeamRows(teams, cols["FTAG"], teams', cols'["FTAG"], w, i);
  }

  /** Until the home team has `w` earlier home matches, its goal-difference form is missing. */
  lemma FormMissingEarly(cols: Columns, n: nat, w: nat, i: nat)
    requires w >= 1 && FormReady(cols, n) && i < n
    requires Appearances(cols["HomeTeam"], cols["HomeTeam"][i], i) < w
    ensures FormColumns(cols, n, w)["goal_diff_form_home"][i].Missing?
  {
    RollingMissingEarly(cols["HomeTeam"], cols["FTHG"], w, i);
  }

  // ---------------------------------------------------------------------------
  // add_stat_features
  // ---------------------------------------------------------------------------

  /** One rolling average: grouped by the home or the away team, the source column, the new column. */
  datatype RollSpec = RollSpec(home: bool, value: string, target: string)
  {
    /** The column the average groups by. */
    function team(): string
    {
      if home then "HomeTeam" else "AwayTeam"
    }
  }

  /** The twelve averages of `add_stat_features`, in order. */
  const StatSpecs: seq<RollSpec> := [
    RollSpec(true, "HS", "home_avg_shots_7"),
    RollSpec(false, "AS", "away_avg_shots_7"),
    RollSpec(true, "HST", "home_avg_shots_on_target_7"),
    RollSpec(false, "AST", "away_avg_shots_on_target_7"),
    RollSpec(true, "HC", "home_avg_corners_7"),
    RollSpec(false, "AC", "away_avg_corners_7"),
    RollSpec(true, "HF", "home_avg_fouls_7"),
    RollSpec(false, "AF", "away_avg_fouls_7"),
    RollSpec(true, "HY", "home_avg_yellows_7"),
    RollSpec(false, "AY", "away_avg_yellows_7"),
    RollSpec(true, "HR", "home_avg_reds_7"),
    RollSpec(false, "AR", "away_avg_reds_7")
  ]

  /** The columns `add_stat_features` may write. */
  function StatTargets(): (targets: set<string>)
    ensures forall j :: 0 <= j < |StatSpecs| ==> StatSpecs[j].target in targets
  {
    set j | 0 <= j < |StatSpecs| :: StatSpecs[j].target
  }

  /** No average writes a column another one reads, and no two write the same column. */
  lemma StatSpecsSeparate()
    ensures forall j :: 0 <= j < |StatSpecs| ==> StatSpecs[j].team() !in StatTargets() && StatSpecs[j].value !in StatTargets()
    ensures forall j, l :: 0 <= j < l < |StatSpecs| ==> StatSpecs[j].target != StatSpecs[l].target
  {
    forall j | 0 <= j < |StatSpecs|
      ensures StatSpecs[j].team() !in StatTargets() && StatSpecs[j].value !in StatTargets()
    {
      assert |StatSpecs[j].team()| == 8 && |StatSpecs[j].value| <= 3;
      assert forall t :: t in StatTargets() ==> |t| >= 15;
    }
  }

  /** A frame of `n` rows with both team columns. */
  predicate StatFrame(cols: Columns, n: nat)
  {
    Rectangular(cols, n) && "HomeTeam" in cols && "AwayTeam" in cols
  }

  /** Both team columns exist and every statistics column present holds finite numbers or NaN. */
  predicate StatReady(cols: Columns, n: nat)
  {
    && StatFrame(cols, n)
    && forall j :: 0 <= j < |StatSpecs| && StatSpecs[j].value in cols ==> FiniteOrMissing(cols[StatSpecs[j].value])
  }

  /** The frame after the first `m` iterations of the loop of `add_stat_features`. */
  function StatColumns(cols: Columns, n: nat, w: nat, m: nat): (r: Columns)
    requires w >= 1 && StatFrame(cols, n) && m <= |StatSpecs|
    ensures Rectangular(r, n)
    ensures forall c :: c !in StatTargets() ==> (c in r <==> c in cols) && (c in r ==> r[c] == cols[c])
  {
    if m == 0 then cols
    else
      var prev := StatColumns(cols, n, w, m - 1);
      var s := StatSpecs[m - 1];
      SourcesNotTargets(m - 1);
      if s.value in prev then
        var avg := RollingColumn(prev[s.team()], prev[s.value], w);
        assert |avg| == n;
        prev[s.target := avg]
      else prev
  }

  /** `add_stat_features`: every average whose source column exists. */
  method AddStatFeatures(df: Frame, w: nat)
    requires w >= 1 && df.Valid() && StatReady(df.columns, df.rows)
    modifies df
    ensures df.Valid() && df.rows == old(df.rows)
    ensures df.columns == StatColumns(old(df.columns), df.rows, w, |StatSpecs|)
  {
    for m := 0 to |StatSpecs|
      invariant df.Valid() && df.rows == old(df.rows)
      invariant df.columns == StatColumns(old(df.columns), df.rows, w, m)
    {
      var s := StatSpecs[m];
      StatIteration(old(df.columns), df.rows, w, m);
      if s.value in df.columns {
        RollingFeature(df, s.team(), s.value, s.target, w);
      }
    }
  }

  /** One iteration of the loop: a present source column is ready, and its average is written. */
  lemma StatIteration(cols: Columns, n: nat, w: nat, m: nat)
    requires w >= 1 && StatReady(cols, n) && m < |StatSpecs|
    ensures var prev := StatColumns(cols, n, w, m);
            var s := StatSpecs[m];
            && (s.value in prev ==> RollingReady(prev, n, s.team(), s.value))
            && (s.value in prev ==> StatColumns(cols, n, w, m + 1) == prev[s.target := RollingColumn(prev[s.team()], prev[s.value], w)])
            && (s.value !in prev ==> StatColumns(cols, n, w, m + 1) == prev)
  {
    SourcesNotTargets(m);
  }

  /**
   * Each statistics average is written exactly when its source column exists, and
   * then holds the rolling average of that column; otherwise its column is as it was.
   */
  lemma StatProduced(cols: Columns, n: nat, w: nat, j: nat)
    requires w >= 1 && StatFrame(cols, n) && j < |StatSpecs|
    ensures var r := StatColumns(cols, n, w, |StatSpecs|);
            var s := StatSpecs[j];
            && (s.value in cols ==> s.target in r && r[s.target] == RollingColumn(cols[s.team()], cols[s.value], w))
            && (s.value !in cols ==> (s.target in r <==> s.target in cols) && (s.target in r ==> r[s.target] == cols[s.target]))
  {
    var t := StatSpecs[j].target;
    StatOwn(cols, n, w, j);
    forall l | j + 1 <= l < |StatSpecs| ensures StatSpecs[l].target != t {
      TargetsDistinct(j, l);
    }
    StatUntouched(cols, n, w, t, j + 1, |StatSpecs|);
  }

  /** Iteration `j` writes its target from the original source columns, or not at all. */
  lemma StatOwn(cols: Columns, n: nat, w: nat, j: nat)
    requires w >= 1 && StatFrame(cols, n) && j < |StatSpecs|
    ensures var r := StatColumns(cols, n, w, j + 1);
            var s := StatSpecs[j];
            && (s.value in cols ==> s.target in r && r[s.target] == RollingColumn(cols[s.team()], cols[s.value], w))
            && (s.value !in cols ==> (s.target in r <==> s.target in cols) && (s.target in r ==> r[s.target] == cols[s.target]))
  {
    var t := StatSpecs[j].target;
    forall l | 0 <= l < j ensures StatSpecs[l].target != t {
      TargetsDistinct(l, j);
    }
    StatUntouched(cols, n, w, t, 0, j);
    SourcesNotTargets(j);
    var s, prev := StatSpecs[j], StatColumns(cols, n, w, j);
    assert s.team() in prev && prev[s.team()] == cols[s.team()];
    if s.value in cols {
      assert s.value in prev && prev[s.value] == cols[s.value];
      assert StatColumns(cols, n, w, j + 1) == prev[t := RollingColumn(prev[s.team()], prev[s.value], w)];
    }
  }

  /** Iterations `k .. m - 1`, none of which writes `t`, leave column `t` alone. */
  lemma {:induction false} StatUntouched(cols: Columns, n: nat, w: nat, t: string, k: nat, m: nat)
    requires w >= 1 && StatFrame(cols, n) && k <= m <= |StatSpecs|
    requires forall l :: k <= l < m ==> StatSpecs[l].target != t
    ensures var r, prev := StatColumns(cols, n, w, m), StatColumns(cols, n, w, k);
            (t in r <==> t in prev) && (t in r ==> r[t] == prev[t])
    decreases m
  {
    if m > k {
      StatUntouched(cols, n, w, t, k, m - 1);
      StatStep(cols, n, w, m, t);
    }
  }

  /** Iteration `j` groups by a team column and reads no column that an iteration writes. */
  lemma SourcesNotTargets(j: nat)
    requires j < |StatSpecs|
    ensures StatSpecs[j].team() !in StatTargets() && StatSpecs[j].value !in StatTargets()
    ensures StatSpecs[j].target in StatTargets()
  {
    StatSpecsSeparate();
  }

  /** Two different iterations write different columns. */
  lemma TargetsDistinct(j: nat, l: nat)
    requires j < l < |StatSpecs|
    ensures StatSpecs[j].target != StatSpecs[l].target
  {
    StatSpecsSeparate();
  }

  /** Iteration `m` changes no column but its own target. */
  lemma StatStep(cols: Columns, n: nat, w: nat, m: nat, t: string)
    requires w >= 1 && StatFrame(cols, n) && 0 < m <= |StatSpecs| && t != StatSpecs[m - 1].target
    ensures var r := StatColumns(cols, n, w, m);
            var prev := StatColumns(cols, n, w, m - 1);
            (t in r <==> t in prev) && (t in r ==> r[t] == prev[t])
  {
  }

  // ---------------------------------------------------------------------------
  // add_index_features
  // ---------------------------------------------------------------------------

  /** `goals + 0.1 * shots_on_target`. */
  function Attack(goals: Value, onTarget: Value): (r: Value)
    requires IsNumeric(goals) && IsNumeric(onTarget)
    ensures IsNumeric(r)
    ensures goals.Missing? || onTarget.Missing? ==> r.Missing?
    ensures goals.Num? && onTarget.Num? && onTarget.x >= 0.0 ==> r.Num? && r.x >= goals.x
  {
    Add(goals, Scale(0.1, onTarget))
  }

  /** `1 / (conceded + 0.1 * yellows + 1e-3)`. */
  function Defense(conceded: Value, yellows: Value): (r: Value)
    requires IsNumeric(conceded) && IsNumeric(yellows)
    ensures IsNumeric(r)
    ensures conceded.Missing? || yellows.Missing? ==> r.Missing?
    ensures conceded.Num? && yellows.Num? && conceded.x >= 0.0 && yellows.x >= 0.0 ==> r.Num? && 0.0 < r.x <= 1000.0
  {
    var denominator := Add(Add(conceded, Scale(0.1, yellows)), Num(0.001));
    DefenseBound(denominator);
    Div(Num(1.0), denominator)
  }

  /** A denominator of at least 1e-3 gives a reciprocal in (0, 1000]. */
  lemma DefenseBound(d: Value)
    ensures d.Num? && d.x >= 0.001 ==> 0.0 < 1.0 / d.x <= 1000.0
  {
    if d.Num? && d.x >= 0.001 {
      assert 1.0 / d.x * d.x == 1.0;
    }
  }

  /** `1 - (0.5 * yellows + 1.5 * reds) / 10`. */
  function Discipline(yellows: Value, reds: Value): (r: Value)
    requires IsNumeric(yellows) && IsNumeric(reds)
    ensures IsNumeric(r)
    ensures yellows.Missing? || reds.Missing? ==> r.Missing?
    ensures yellows.Num? && reds.Num? && yellows.x >= 0.0 && reds.x >= 0.0 ==> r.Num? && r.x <= 1.0
  {
    Sub(Num(1.0), Div(Add(Scale(0.5, yellows), Scale(1.5, reds)), Num(10.0)))
  }

  /** The ten averages the indices read, all numeric. */
  predicate IndexReady(cols: Columns, n: nat)
  {
    && Rectangular(cols, n)
    && (forall c :: c in IndexInputs() ==> c in cols && NumericColumn(cols[c]))
  }

  function IndexInputs(): set<string>
  {
    {"home_avg_goals_scored_7", "away_avg_goals_scored_7", "home_avg_shots_on_target_7", "away_avg_shots_on_target_7",
     "home_avg_goals_conceded_7", "away_avg_goals_conceded_7", "home_avg_yellows_7", "away_avg_yellows_7",
     "home_avg_reds_7", "away_avg_reds_7"}
  }

  /** One index column: `f` applied row by row to two columns. */
  function Combine(a: seq<Value>, b: seq<Value>, f: (Value, Value) --> Value): (r: seq<Value>)
    requires |a| == |b| && NumericColumn(a) && NumericColumn(b)
    requires forall x, y :: IsNumeric(x) && IsNumeric(y) ==> f.requires(x, y) && IsNumeric(f(x, y))
    ensures |r| == |a| && NumericColumn(r)
    ensures forall i :: 0 <= i < |r| ==> r[i] == f(a[i], b[i])
  {
    seq(|a|, i requires 0 <= i < |a| => f(a[i], b[i]))
  }

  /** The columns `add_index_features` writes. */
  function IndexTargets(): set<string>
  {
    {"attack_strength_home", "attack_strength_away", "defense_strength_home",
     "defense_strength_away", "discipline_index_home", "discipline_index_away"}
  }

  /** The six index columns. */
  function IndexColumns(cols: Columns, n: nat): (r: Columns)
    requires IndexReady(cols, n)
    ensures Rectangular(r, n)
  {
    var attackHome := Combine(cols["home_avg_goals_scored_7"], cols["home_avg_shots_on_target_7"], Attack);
    var attackAway := Combine(cols["away_avg_goals_scored_7"], cols["away_avg_shots_on_target_7"], Attack);
    var defenseHome := Combine(cols["home_avg_goals_conceded_7"], cols["home_avg_yellows_7"], Defense);
    var defenseAway := Combine(cols["away_avg_goals_conceded_7"], cols["away_avg_yellows_7"], Defense);
    var disciplineHome := Combine(cols["home_avg_yellows_7"], cols["home_avg_reds_7"], Discipline);
    var disciplineAway := Combine(cols["away_avg_yellows_7"], cols["away_avg_reds_7"], Discipline);
    cols["attack_strength_home" := attackHome]["attack_strength_away" := attackAway]
        ["defense_strength_home" := defenseHome]["defense_strength_away" := defenseAway]
        ["discipline_index_home" := disciplineHome]["discipline_index_away" := disciplineAway]
  }

  /** The indices add exactly their six numeric columns and keep every other one. */
  lemma IndexFrame(cols: Columns, n: nat)
    requires IndexReady(cols, n)
    ensures var r := IndexColumns(cols, n);
            && r.Keys == cols.Keys + IndexTargets()
            && (forall c :: c in cols && c !in IndexTargets() ==> r[c] == cols[c])
            && (forall c :: c in IndexTargets() ==> NumericColumn(r[c]))
  {
    IndexKeys(cols, n);
    IndexKeeps(cols, n);
    IndexNumeric(cols, n);
  }

  lemma IndexKeys(cols: Columns, n: nat)
    requires IndexReady(cols, n)
    ensures IndexColumns(cols, n).Keys == cols.Keys + IndexTargets()
  {
  }

  lemma IndexKeeps(cols: Columns, n: nat)
    requires IndexReady(cols, n)
    ensures var r := IndexColumns(cols, n);
            forall c :: c in cols && c !in IndexTargets() ==> r[c] == cols[c]
  {
  }

  lemma IndexNumeric(cols: Columns, n: nat)
    requires IndexReady(cols, n)
    ensures var r := IndexColumns(cols, n);
            forall c :: c in IndexTargets() ==> c in r && NumericColumn(r[c])
  {
  }

  /** `add_index_features`: writes the six index columns. */
  method AddIndexFeatures(df: Frame)
    requires df.Valid() && IndexReady(df.columns, df.rows)
    modifies df
    ensures df.Valid() && df.rows == old(df.rows)
    ensures df.columns == IndexColumns(old(df.columns), df.rows)
  {
    var cols := df.columns;
    var attackHome := Combine(cols["home_avg_goals_scored_7"], cols["home_avg_shots_on_target_7"], Attack);
    var attackAway := Combine(cols["away_avg_goals_scored_7"], cols["away_avg_shots_on_target_7"], Attack);
    var defenseHome := Combine(cols["home_avg_goals_conceded_7"], cols["home_avg_yellows_7"], Defense);
    var defenseAway := Combine(cols["away_avg_goals_conceded_7"], cols["away_avg_yellows_7"], Defense);
    var disciplineHome := Combine(cols["home_avg_yellows_7"], cols["home_avg_reds_7"], Discipline);
    var disciplineAway := Combine(cols["away_avg_yellows_7"], cols["away_avg_reds_7"], Discipline);
    df.Assign("attack_strength_home", attackHome);
    df.Assign("attack_strength_away", attackAway);
    df.Assign("defense_strength_home", defenseHome);
    df.Assign("defense_strength_away", defenseAway);
    df.Assign("discipline_index_home", disciplineHome);
    df.Assign("discipline_index_away", disciplineAway);
  }

  // ---------------------------------------------------------------------------
  // add_market_features
  // ---------------------------------------------------------------------------

  /** `max(axis=1)` over three cells, skipping NaN. */
  function Max3(a: Value, b: Value, c: Value): (r: Value)
    requires IsNumeric(a) && IsNumeric(b) && IsNumeric(c)
    ensures IsNumeric(r) && (r == a || r == b || r == c)
    ensures r.Missing? <==> a.Missing? && b.Missing? && c.Missing?
    ensures (!a.Missing? ==> !Less(r, a)) && (!b.Missing? ==> !Less(r, b)) && (!c.Missing? ==> !Less(r, c))
  {
    var ab := MaxSkipNa(a, b);
    LessTransitive(a, ab, MaxSkipNa(ab, c));
    LessTransitive(b, ab, MaxSkipNa(ab, c));
    MaxSkipNa(ab, c)
  }

  /** `min(axis=1)` over three cells, skipping NaN. */
  function Min3(a: Value, b: Value, c: Value): (r: Value)
    requires IsNumeric(a) && IsNumeric(b) && IsNumeric(c)
    ensures IsNumeric(r) && (r == a || r == b || r == c)
    ensures r.Missing? <==> a.Missing? && b.Missing? && c.Missing?
    ensures (!a.Missing? ==> !Less(a, r)) && (!b.Missing? ==> !Less(b, r)) && (!c.Missing? ==> !Less(c, r))
  {
    var ab := MinSkipNa(a, b);
    LessTransitive(MinSkipNa(ab, c), ab, a);
    LessTransitive(MinSkipNa(ab, c), ab, b);
    MinSkipNa(ab, c)
  }

  /** Not-less is transitive on non-missing cells. */
  lemma LessTransitive(a: Value, b: Value, c: Value)
    requires IsNumeric(a) && IsNumeric(b) && IsNumeric(c)
    ensures !a.Missing? && !b.Missing? && !c.Missing? && !Less(b, a) && !Less(c, b) ==> !Less(c, a)
  {
  }

  /** The odds-derived cells of one row, before the final clean-up. */
  datatype MarketRow = MarketRow(home: Value, draw: Value, away: Value, diff: Value, margin: Value)

  /** `1 / odds` for each outcome, divided by the row's NaN-skipping sum. */
  function Normalised(oddsHome: Value, oddsDraw: Value, oddsAway: Value): (p: (Value, Value, Value))
    requires IsNumeric(oddsHome) && IsNumeric(oddsDraw) && IsNumeric(oddsAway)
    ensures IsNumeric(p.0) && IsNumeric(p.1) && IsNumeric(p.2)
  {
    var impliedHome, impliedDraw, impliedAway := Div(Num(1.0), oddsHome), Div(Num(1.0), oddsDraw), Div(Num(1.0), oddsAway);
    var total := SumSkipNa(impliedHome, impliedDraw, impliedAway);
    (Div(impliedHome, total), Div(impliedDraw, total), Div(impliedAway, total))
  }

  /**
   * The normalised probabilities, then the home-minus-away difference and the
   * favourite margin (largest minus smallest).
   */
  function Market(oddsHome: Value, oddsDraw: Value, oddsAway: Value): (m: MarketRow)
    requires IsNumeric(oddsHome) && IsNumeric(oddsDraw) && IsNumeric(oddsAway)
    ensures IsNumeric(m.home) && IsNumeric(m.draw) && IsNumeric(m.away) && IsNumeric(m.diff) && IsNumeric(m.margin)
  {
    var (home, draw, away) := Normalised(oddsHome, oddsDraw, oddsAway);
    MarketRow(home, draw, away, Sub(home, away), Sub(Max3(home, draw, away), Min3(home, draw, away)))
  }

  /**
   * With three positive odds, the normalised probabilities are each in (0, 1), sum
   * to 1 and keep the ratio of the inverse odds.
   */
  lemma MarketProbabilities(oddsHome: real, oddsDraw: real, oddsAway: real)
    requires oddsHome > 0.0 && oddsDraw > 0.0 && oddsAway > 0.0
    ensures var (home, draw, away) := Normalised(Num(oddsHome), Num(oddsDraw), Num(oddsAway));
            && home.Num? && draw.Num? && away.Num?
            && home.x + draw.x + away.x == 1.0
            && 0.0 < home.x < 1.0 && 0.0 < draw.x < 1.0 && 0.0 < away.x < 1.0
            && home.x * oddsHome == away.x * oddsAway
  {
    Inverse(oddsHome);
    Inverse(oddsDraw);
    Inverse(oddsAway);
    MarketOfPositive(oddsHome, oddsDraw, oddsAway);
    Shares(oddsHome, oddsDraw, oddsAway);
  }

  /** The inverse odds over their sum: fractions in (0, 1) summing to 1, in the odds' inverse ratio. */
  lemma Shares(oddsHome: real, oddsDraw: real, oddsAway: real)
    requires oddsHome > 0.0 && oddsDraw > 0.0 && oddsAway > 0.0
    ensures var t := 1.0 / oddsHome + 1.0 / oddsDraw + 1.0 / oddsAway;
            var home, draw, away := (1.0 / oddsHome) / t, (1.0 / oddsDraw) / t, (1.0 / oddsAway) / t;
            && home + draw + away == 1.0
            && 0.0 < home < 1.0 && 0.0 < draw < 1.0 && 0.0 < away < 1.0
            && home * oddsHome == away * oddsAway
  {
    var h, d, a := 1.0 / oddsHome, 1.0 / oddsDraw, 1.0 / oddsAway;
    Inverse(oddsHome);
    Inverse(oddsDraw);
    Inverse(oddsAway);
    Normalise(h, d, a);
    SharesKeepRatio(h / (h + d + a), a / (h + d + a), h + d + a, oddsHome, oddsAway);
  }

  /** Dividing two inverse odds by the same total keeps their ratio. */
  lemma SharesKeepRatio(shareHome: real, shareAway: real, t: real, oddsHome: real, oddsAway: real)
    requires oddsHome > 0.0 && oddsAway > 0.0 && t > 0.0
    requires shareHome == (1.0 / oddsHome) / t && shareAway == (1.0 / oddsAway) / t
    ensures shareHome * oddsHome == shareAway * oddsAway
  {
    Rescale(1.0 / oddsHome, t, oddsHome);
    Rescale(1.0 / oddsAway, t, oddsAway);
    Inverse(oddsHome);
    Inverse(oddsAway);
  }

  /** A positive number's inverse is positive and undoes it. */
  lemma Inverse(o: real)
    requires o > 0.0
    ensures 1.0 / o > 0.0 && (1.0 / o) * o == 1.0
  {
  }

  /** `(x / t) * o == (x * o) / t`. */
  lemma Rescale(x: real, t: real, o: real)
    requires t > 0.0
    ensures (x / t) * o == (x * o) / t
  {
  }

  /** With positive odds, every cell is a number: the inverse odds over their sum. */
  lemma MarketOfPositive(oddsHome: real, oddsDraw: real, oddsAway: real)
    requires oddsHome > 0.0 && oddsDraw > 0.0 && oddsAway > 0.0
    requires 1.0 / oddsHome > 0.0 && 1.0 / oddsDraw > 0.0 && 1.0 / oddsAway > 0.0
    ensures var p := Normalised(Num(oddsHome), Num(oddsDraw), Num(oddsAway));
            var t := 1.0 / oddsHome + 1.0 / oddsDraw + 1.0 / oddsAway;
            p == (Num((1.0 / oddsHome) / t), Num((1.0 / oddsDraw) / t), Num((1.0 / oddsAway) / t))
  {
    var h, d, a := 1.0 / oddsHome, 1.0 / oddsDraw, 1.0 / oddsAway;
    var impliedHome, impliedDraw, impliedAway := Div(Num(1.0), Num(oddsHome)), Div(Num(1.0), Num(oddsDraw)), Div(Num(1.0), Num(oddsAway));
    assert impliedHome == Num(h) && impliedDraw == Num(d) && impliedAway == Num(a);
    var t := h + d + a;
    assert t > 0.0;
    assert SumSkipNa(impliedHome, impliedDraw, impliedAway) == Num(t);
  }

  /** Three positive shares divided by their sum sum to 1, each strictly between 0 and 1. */
  lemma Normalise(h: real, d: real, a: real)
    requires h > 0.0 && d > 0.0 && a > 0.0
    ensures var t := h + d + a;
            h / t + d / t + a / t == 1.0 && 0.0 < h / t < 1.0 && 0.0 < d / t < 1.0 && 0.0 < a / t < 1.0
  {
    var t := h + d + a;
    assert h / t + d / t + a / t == (h + d + a) / t;
    Share(h, t);
    Share(d, t);
    Share(a, t);
  }

  /** A part of a positive whole is a fraction strictly between 0 and 1. */
  lemma Share(x: real, t: real)
    requires 0.0 < x < t
    ensures 0.0 < x / t < 1.0
  {
    var q := x / t;
    assert q * t == x;
    if q >= 1.0 {
      assert false;
    }
  }

  /** The favourite margin is never negative. */
  lemma MarginNonNegative(oddsHome: Value, oddsDraw: Value, oddsAway: Value)
    requires IsNumeric(oddsHome) && IsNumeric(oddsDraw) && IsNumeric(oddsAway)
    ensures var m := Market(oddsHome, oddsDraw, oddsAway);
            m.margin.Num? ==> m.margin.x >= 0.0
  {
    var m := Market(oddsHome, oddsDraw, oddsAway);
    var hi, lo := Max3(m.home, m.draw, m.away), Min3(m.home, m.draw, m.away);
    if m.margin.Num? {
      assert hi.Num? && lo.Num?;
      assert !Less(hi, lo);
    }
  }

  /** The three odds columns of the frame. */
  predicate HasOdds(cols: Columns)
  {
    "B365H" in cols && "B365D" in cols && "B365A" in cols
  }

  /** The odds columns, when present, hold floats. */
  predicate MarketReady(cols: Columns, n: nat)
  {
    Rectangular(cols, n) && (HasOdds(cols) ==> NumericColumn(cols["B365H"]) && NumericColumn(cols["B365D"]) && NumericColumn(cols["B365A"]))
  }

  /** The row-by-row market cells of a frame with the three odds columns. */
  function MarketRows(cols: Columns, n: nat): (rows: seq<MarketRow>)
    requires MarketReady(cols, n) && HasOdds(cols)
    ensures |rows| == n
    ensures forall i :: 0 <= i < n ==> rows[i] == Market(cols["B365H"][i], cols["B365D"][i], cols["B365A"][i])
  {
    seq(n, i requires 0 <= i < n => Market(cols["B365H"][i], cols["B365D"][i], cols["B365A"][i]))
  }

  /**
   * The frame after `add_market_features`: unchanged without all three odds
   * columns; otherwise the five new columns, then every infinite or missing cell of
   * every column replaced by 0.
   */
  function MarketColumns(cols: Columns, n: nat): (r: Columns)
    requires MarketReady(cols, n)
    ensures Rectangular(r, n)
    ensures !HasOdds(cols) ==> r == cols
    ensures HasOdds(cols) ==> forall c, i :: c in r && 0 <= i < |r[c]| ==> !r[c][i].Inf? && !r[c][i].Missing?
  {
    if !HasOdds(cols) then cols
    else
      var rows := MarketRows(cols, n);
      CleanColumns(cols["B365H_prob" := seq(n, i requires 0 <= i < n => rows[i].home)]
                       ["B365D_prob" := seq(n, i requires 0 <= i < n => rows[i].draw)]
                       ["B365A_prob" := seq(n, i requires 0 <= i < n => rows[i].away)]
                       ["prob_diff_home_away" := seq(n, i requires 0 <= i < n => rows[i].diff)]
                       ["prob_fav_margin" := seq(n, i requires 0 <= i < n => rows[i].margin)])
  }

  /** The columns `add_market_features` writes. */
  function MarketTargets(): set<string>
  {
    {"B365H_prob", "B365D_prob", "B365A_prob", "prob_diff_home_away", "prob_fav_margin"}
  }

  /** With the odds present, every column the market stage does not write keeps its cells, NaN and infinities filled by 0. */
  lemma MarketFrame(cols: Columns, n: nat)
    requires MarketReady(cols, n) && HasOdds(cols)
    ensures var r := MarketColumns(cols, n);
            && r.Keys == cols.Keys + MarketTargets()
            && forall c, i :: c in cols && c !in MarketTargets() && 0 <= i < n ==> r[c][i] == Clean(cols[c][i])
  {
  }

  /** On a row with three positive odds, the three probability columns sum to 1. */
  lemma MarketColumnsSumToOne(cols: Columns, n: nat, i: nat)
    requires MarketReady(cols, n) && HasOdds(cols) && i < n
    requires cols["B365H"][i].Num? && cols["B365D"][i].Num? && cols["B365A"][i].Num?
    requires cols["B365H"][i].x > 0.0 && cols["B365D"][i].x > 0.0 && cols["B365A"][i].x > 0.0
    ensures var r := MarketColumns(cols, n);
            && "B365H_prob" in r && "B365D_prob" in r && "B365A_prob" in r
            && r["B365H_prob"][i].x + r["B365D_prob"][i].x + r["B365A_prob"][i].x == 1.0
  {
    MarketProbabilities(cols["B365H"][i].x, cols["B365D"][i].x, cols["B365A"][i].x);
  }

  /** `add_market_features`. */
  method AddMarketFeatures(df: Frame)
    requires df.Valid() && MarketReady(df.columns, df.rows)
    modifies df
    ensures df.Valid() && df.rows == old(df.rows)
    ensures df.columns == MarketColumns(old(df.columns), df.rows)
  {
    if !HasOdds(df.columns) {
      return;
    }
    var n := df.rows;
    var rows := MarketRows(df.columns, n);
    df.Assign("B365H_prob", seq(n, i requires 0 <= i < n => rows[i].home));
    df.Assign("B365D_prob", seq(n, i requires 0 <= i < n => rows[i].draw));
    df.Assign("B365A_prob", seq(n, i requires 0 <= i < n => rows[i].away));
    df.Assign("prob_diff_home_away", seq(n, i requires 0 <= i < n => rows[i].diff));
    df.Assign("prob_fav_margin", seq(n, i requires 0 <= i < n => rows[i].margin));
    df.CleanAll();
  }
}
