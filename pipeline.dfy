/**
 * `generate_features` of feature_engineering.py: sort the matches by date, then
 * add the Elo, form, statistics, index and (when the odds are there) market
 * features, each stage reading what the earlier ones wrote.
 */
module Pipeline {
  import opened Values
  import opened Frames
  import opened Elo
  import opened Rolling
  import opened Features
  import opened Sorting

  /** `k_factor` of `add_elo_features`. */
  const KFactor: real := 20.0

  /** `window` of the form and statistics averages. */
  const Window: nat := 7

  /** The statistics the indices read, which `add_index_features` indexes without a check. */
  function IndexSources(): set<string>
  {
    {"HST", "AST", "HY", "AY", "HR", "AR"}
  }

  /** Every column of the match file that some stage reads. */
  function ReadColumns(): set<string>
  {
    {"Date", "HomeTeam", "AwayTeam", "FTHG", "FTAG", "B365H", "B365D", "B365A",
     "HS", "AS", "HST", "AST", "HC", "AC", "HF", "AF", "HY", "AY", "HR", "AR"}
  }

  /** The match columns in the state every stage needs them in. */
  predicate MatchColumns(cols: Columns, n: nat)
  {
    && Rectangular(cols, n)
    && "HomeTeam" in cols && "AwayTeam" in cols && "FTHG" in cols && "FTAG" in cols
    && FiniteOrMissing(cols["FTHG"]) && FiniteOrMissing(cols["FTAG"])
    && (forall c :: c in IndexSources() ==> c in cols)
    && (forall j :: 0 <= j < |StatSpecs| && StatSpecs[j].value in cols ==> FiniteOrMissing(cols[StatSpecs[j].value]))
    && MarketReady(cols, n)
  }

  /** What `generate_features` needs of the match file: the columns above and a date column. */
  predicate PipelineReady(cols: Columns, n: nat)
  {
    MatchColumns(cols, n) && "Date" in cols && DateColumn(cols["Date"])
  }

  /** The form columns are new columns. */
  lemma FormNamesNew()
    ensures forall c :: c in FormTargets() ==> c !in ReadColumns()
  {
    ReadNamesShort();
    FormNamesLong();
  }

  /** No statistics average overwrites a form column. */
  lemma FormNotStat()
    ensures forall c :: c in FormTargets() ==> c !in StatTargets()
  {
    FormNamesLong();
    StatNamesLong();
  }

  /** The statistics averages are new columns. */
  lemma StatNamesNew()
    ensures forall c :: c in StatTargets() ==> c !in ReadColumns()
  {
    ReadNamesShort();
    StatNamesLong();
  }

  /** The index columns are new columns. */
  lemma IndexNamesNew()
    ensures forall c :: c in IndexTargets() ==> c !in ReadColumns()
  {
    ReadNamesShort();
    IndexNamesLong();
  }

  lemma ReadNamesShort()
    ensures forall c :: c in ReadColumns() ==> |c| <= 8
  {
  }

  lemma FormNamesLong()
    ensures forall c :: c in FormTargets() ==> |c| == 19 || |c| == 23 || |c| == 25
  {
  }

  lemma StatNamesLong()
    ensures forall c :: c in StatTargets() ==> |c| == 15 || |c| == 16 || |c| == 18 || |c| == 26
  {
    forall j | 0 <= j < |StatSpecs| ensures |StatSpecs[j].target| in {15, 16, 18, 26} { }
  }

  lemma IndexNamesLong()
    ensures forall c :: c in IndexTargets() ==> |c| >= 19
  {
  }

  lemma EloNamesNew()
    ensures forall c :: c in EloTargets() ==> c !in ReadColumns()
  {
    forall c | c in EloTargets() ensures c !in ReadColumns() {
      assert |c| == 8 && c[0] == 'e';
    }
  }

  /** A stage that writes only new columns leaves the match columns as they were. */
  lemma KeepsMatchColumns(cols: Columns, r: Columns, n: nat, targets: set<string>)
    requires MatchColumns(cols, n) && Rectangular(r, n)
    requires forall c :: c in targets ==> c !in ReadColumns()
    requires forall c :: c !in targets ==> (c in r <==> c in cols) && (c in r ==> r[c] == cols[c])
    ensures MatchColumns(r, n)
  {
    forall j | 0 <= j < |StatSpecs| && StatSpecs[j].value in r
      ensures StatSpecs[j].value !in targets
    {
      assert StatSpecs[j].value in ReadColumns();
    }
    assert "HST" in ReadColumns() && "AST" in ReadColumns() && "HY" in ReadColumns();
    assert "AY" in ReadColumns() && "HR" in ReadColumns() && "AR" in ReadColumns();
  }

  /** Sorting moves cells between rows but keeps what kind of cells a column holds. */
  lemma ReorderKeepsKinds(cols: Columns, n: nat, order: seq<nat>)
    requires Rectangular(cols, n) && |order| == n && forall i :: 0 <= i < n ==> order[i] < n
    ensures var r := Reorder(cols, n, order);
            forall c :: c in cols ==>
              && (FiniteOrMissing(cols[c]) ==> FiniteOrMissing(r[c]))
              && (NumericColumn(cols[c]) ==> NumericColumn(r[c]))
  {
    var r := Reorder(cols, n, order);
    forall c | c in cols
      ensures FiniteOrMissing(cols[c]) ==> FiniteOrMissing(r[c])
      ensures NumericColumn(cols[c]) ==> NumericColumn(r[c])
    {
      forall i | 0 <= i < n ensures r[c][i] == cols[c][order[i]] { }
    }
  }

  /** The sorted frame still has every match column in the state the stages need. */
  lemma SortedReady(cols: Columns, n: nat, order: seq<nat>)
    requires PipelineReady(cols, n) && IsDateOrder(order, cols["Date"])
    ensures |order| == n && forall i :: 0 <= i < n ==> order[i] < n
    ensures MatchColumns(Reorder(cols, n, order), n)
  {
    DateOrderIsPermutation(order, cols["Date"]);
    ReorderKeepsKinds(cols, n, order);
    var r := Reorder(cols, n, order);
    forall j | 0 <= j < |StatSpecs| && StatSpecs[j].value in r
      ensures FiniteOrMissing(r[StatSpecs[j].value])
    {
      assert StatSpecs[j].value in cols;
    }
  }

  /** After the form stage: the match columns, and the four goal averages, numeric. */
  predicate Formed(cols: Columns, n: nat)
  {
    MatchColumns(cols, n) && forall t :: t in FormTargets() ==> t in cols && NumericColumn(cols[t])
  }

  /** Elo then form, from the sorted frame. */
  function RatedAndFormed(sorted: Columns, n: nat, expectation: Expectation): (r: Columns)
    requires MatchColumns(sorted, n)
    ensures Formed(r, n)
    ensures forall c :: c !in EloTargets() && c !in FormTargets() ==> (c in r <==> c in sorted) && (c in r ==> r[c] == sorted[c])
  {
    EloNamesNew();
    FormNamesNew();
    var rated := EloColumns(sorted, n, KFactor, expectation);
    KeepsMatchColumns(sorted, rated, n, EloTargets());
    var formed := FormColumns(rated, n, Window);
    KeepsMatchColumns(rated, formed, n, FormTargets());
    formed
  }

  /** The statistics averages leave the frame ready for the indices. */
  lemma StatsReadyForIndex(cols: Columns, n: nat)
    requires Formed(cols, n)
    ensures StatReady(cols, n)
    ensures IndexReady(StatColumns(cols, n, Window, |StatSpecs|), n)
  {
    FormAveragesKept(cols, n);
    StatAveragesReady(cols, n);
    IndexInputsSplit();
  }

  /** The ten index inputs: four goal averages and six statistics averages. */
  lemma IndexInputsSplit()
    ensures forall c :: c in IndexInputs() ==>
              c in FormTargets() || c in {"home_avg_shots_on_target_7", "away_avg_shots_on_target_7",
                                          "home_avg_yellows_7", "away_avg_yellows_7", "home_avg_reds_7", "away_avg_reds_7"}
  {
  }

  /** The statistics loop does not touch the goal averages. */
  lemma FormAveragesKept(cols: Columns, n: nat)
    requires Formed(cols, n)
    ensures var r := StatColumns(cols, n, Window, |StatSpecs|);
            forall t :: t in FormTargets() ==> t in r && NumericColumn(r[t])
  {
    FormNotStat();
  }

  /** The six averages the indices read are produced, and numeric. */
  lemma StatAveragesReady(cols: Columns, n: nat)
    requires Formed(cols, n)
    ensures var r := StatColumns(cols, n, Window, |StatSpecs|);
            && "home_avg_shots_on_target_7" in r && NumericColumn(r["home_avg_shots_on_target_7"])
            && "away_avg_shots_on_target_7" in r && NumericColumn(r["away_avg_shots_on_target_7"])
            && "home_avg_yellows_7" in r && NumericColumn(r["home_avg_yellows_7"])
            && "away_avg_yellows_7" in r && NumericColumn(r["away_avg_yellows_7"])
            && "home_avg_reds_7" in r && NumericColumn(r["home_avg_reds_7"])
            && "away_avg_reds_7" in r && NumericColumn(r["away_avg_reds_7"])
  {
    StatAverageReady(cols, n, 2);
    StatAverageReady(cols, n, 3);
    StatAverageReady(cols, n, 8);
    StatAverageReady(cols, n, 9);
    StatAverageReady(cols, n, 10);
    StatAverageReady(cols, n, 11);
  }

  /** An average whose source the indices need is there, and numeric. */
  lemma StatAverageReady(cols: Columns, n: nat, j: nat)
    requires Formed(cols, n) && j < |StatSpecs| && StatSpecs[j].value in IndexSources()
    ensures var r := StatColumns(cols, n, Window, |StatSpecs|);
            StatSpecs[j].target in r && NumericColumn(r[StatSpecs[j].target])
  {
    StatProduced(cols, n, Window, j);
  }

  /** Statistics then indices, from the frame the form stage left. */
  function StatsAndIndices(formed: Columns, n: nat): (r: Columns)
    requires Formed(formed, n)
    ensures MatchColumns(r, n)
    ensures forall c :: c !in StatTargets() && c !in IndexTargets() ==> (c in r <==> c in formed) && (c in r ==> r[c] == formed[c])
  {
    StatNamesNew();
    IndexNamesNew();
    StatsReadyForIndex(formed, n);
    var stats := StatColumns(formed, n, Window, |StatSpecs|);
    KeepsMatchColumns(formed, stats, n, StatTargets());
    var indexed := IndexColumns(stats, n);
    IndexFrame(stats, n);
    KeepsMatchColumns(stats, indexed, n, IndexTargets());
    indexed
  }

  /** `df.sort_values("Date")` when the sort puts the rows in `order`. */
  function Sorted(cols: Columns, n: nat, order: seq<nat>): (r: Columns)
    requires PipelineReady(cols, n) && IsDateOrder(order, cols["Date"])
    ensures |order| == n && MatchColumns(r, n) && r.Keys == cols.Keys
    ensures forall c, i :: c in r && 0 <= i < n ==> order[i] < n && r[c][i] == cols[c][order[i]]
  {
    SortedReady(cols, n, order);
    Reorder(cols, n, order)
  }

  /** The sorted frame after the Elo, form, statistics and index stages. */
  function Indexed(cols: Columns, n: nat, order: seq<nat>, expectation: Expectation): (r: Columns)
    requires PipelineReady(cols, n) && IsDateOrder(order, cols["Date"])
    ensures MatchColumns(r, n)
  {
    StatsAndIndices(RatedAndFormed(Sorted(cols, n, order), n, expectation), n)
  }

  /** The feature stages of `generate_features`, applied to the sorted frame. */
  function Featured(sorted: Columns, n: nat, expectation: Expectation): (r: Columns)
    requires MatchColumns(sorted, n)
    ensures Rectangular(r, n)
  {
    var indexed := StatsAndIndices(RatedAndFormed(sorted, n, expectation), n);
    if "B365H" in indexed then MarketColumns(indexed, n) else indexed
  }

  /** The frame `generate_features` returns when `sort_values` puts the rows in `order`. */
  function Generated(cols: Columns, n: nat, order: seq<nat>, expectation: Expectation): (r: Columns)
    requires PipelineReady(cols, n) && IsDateOrder(order, cols["Date"])
    ensures Rectangular(r, n)
  {
    Featured(Sorted(cols, n, order), n, expectation)
  }

  /** The match rows in date order, as the Elo loop of the sorted frame visits them. */
  function SortedFixtures(cols: Columns, n: nat, order: seq<nat>): (fixtures: seq<Fixture>)
    requires PipelineReady(cols, n) && IsDateOrder(order, cols["Date"])
    ensures |fixtures| == n == |order| && AllPlayable(fixtures)
    ensures forall i :: 0 <= i < n ==>
              (order[i] < n && fixtures[i] == Fixture(cols["HomeTeam"][order[i]], cols["AwayTeam"][order[i]],
                                                      cols["FTHG"][order[i]], cols["FTAG"][order[i]]))
  {
    FixturesOf(Sorted(cols, n, order), n)
  }

  /** A column no feature stage writes passes through the stages untouched. */
  lemma IndexedKeeps(cols: Columns, n: nat, order: seq<nat>, expectation: Expectation, c: string)
    requires PipelineReady(cols, n) && IsDateOrder(order, cols["Date"])
    requires c !in EloTargets() && c !in FormTargets() && c !in StatTargets() && c !in IndexTargets()
    ensures var r := Indexed(cols, n, order, expectation);
            (c in r <==> c in cols) && (c in r ==> r[c] == Sorted(cols, n, order)[c])
  {
  }

  /** The match columns are never written by a feature stage. */
  lemma ReadColumnsKept(c: string)
    requires c in ReadColumns()
    ensures c !in EloTargets() && c !in FormTargets() && c !in StatTargets() && c !in IndexTargets()
  {
    EloNamesNew();
    FormNamesNew();
    StatNamesNew();
    IndexNamesNew();
  }

  /**
   * The result is a copy of the match file sorted by date: row `i` of every match
   * column is row `order[i]` of the input, with NaN and infinities filled by 0
   * when the three odds columns are there.
   */
  lemma GeneratedRowsFollowOrder(cols: Columns, n: nat, order: seq<nat>, expectation: Expectation, c: string, i: nat)
    requires PipelineReady(cols, n) && IsDateOrder(order, cols["Date"])
    requires c in cols && c in ReadColumns() && i < n && i < |order|
    ensures order[i] < n
    ensures var r := Generated(cols, n, order, expectation);
            c in r && r[c][i] == if HasOdds(cols) then Clean(cols[c][order[i]]) else cols[c][order[i]]
  {
    SortedReady(cols, n, order);
    ReadColumnsKept(c);
    IndexedKeeps(cols, n, order, expectation, c);
    var indexed := Indexed(cols, n, order, expectation);
    OddsKept(cols, n, order, expectation);
    if HasOdds(cols) {
      MarketFrame(indexed, n);
      MarketNamesNew(c);
    }
  }

  /** Every match column of the input is a column of the result. */
  lemma GeneratedHasMatchColumn(cols: Columns, n: nat, order: seq<nat>, expectation: Expectation, c: string)
    requires PipelineReady(cols, n) && IsDateOrder(order, cols["Date"])
    requires c in cols && c in ReadColumns()
    ensures c in Generated(cols, n, order, expectation)
  {
    ReadColumnsKept(c);
    IndexedKeeps(cols, n, order, expectation, c);
    var indexed := Indexed(cols, n, order, expectation);
    if "B365H" in indexed && HasOdds(indexed) {
      MarketFrame(indexed, n);
    }
  }

  /** The odds columns reach the market stage as they were. */
  lemma OddsKept(cols: Columns, n: nat, order: seq<nat>, expectation: Expectation)
    requires PipelineReady(cols, n) && IsDateOrder(order, cols["Date"])
    ensures HasOdds(Indexed(cols, n, order, expectation)) <==> HasOdds(cols)
  {
    ReadColumnsKept("B365H");
    ReadColumnsKept("B365D");
    ReadColumnsKept("B365A");
    IndexedKeeps(cols, n, order, expectation, "B365H");
    IndexedKeeps(cols, n, order, expectation, "B365D");
    IndexedKeeps(cols, n, order, expectation, "B365A");
  }

  /** The market columns are new columns. */
  lemma MarketNamesNew(c: string)
    requires c in ReadColumns()
    ensures c !in MarketTargets()
  {
    ReadNamesShort();
  }

  /** Without the odds, the dates of the result ascend. */
  lemma GeneratedDatesAscending(cols: Columns, n: nat, order: seq<nat>, expectation: Expectation)
    requires PipelineReady(cols, n) && IsDateOrder(order, cols["Date"]) && !HasOdds(cols)
    ensures var r := Generated(cols, n, order, expectation);
            "Date" in r && DateColumn(r["Date"]) && SortedBy(Rows(n), r["Date"])
  {
    var r := Generated(cols, n, order, expectation);
    DateOrderIsPermutation(order, cols["Date"]);
    GeneratedHasMatchColumn(cols, n, order, expectation, "Date");
    forall i | 0 <= i < n ensures order[i] < n && r["Date"][i] == cols["Date"][order[i]] {
      GeneratedRowsFollowOrder(cols, n, order, expectation, "Date", i);
    }
    DatesInOrder(order, cols["Date"], r["Date"]);
  }

  /** No later stage writes an Elo column. */
  lemma EloNamesKept()
    ensures forall c :: c in EloTargets() ==>
              c !in FormTargets() && c !in StatTargets() && c !in IndexTargets() && c !in MarketTargets()
  {
    forall c | c in EloTargets()
      ensures c !in FormTargets() && c !in StatTargets() && c !in IndexTargets() && c !in MarketTargets()
    {
      EloNameShort(c);
      ShortNameKept(c);
    }
  }

  lemma EloNameShort(c: string)
    requires c in EloTargets()
    ensures |c| == 8
  {
  }

  /** A name of at most eight characters is not one a later stage writes. */
  lemma ShortNameKept(c: string)
    requires |c| <= 8
    ensures c !in FormTargets() && c !in StatTargets() && c !in IndexTargets() && c !in MarketTargets()
  {
    ShortNotForm(c);
    ShortNotStat(c);
    ShortNotIndex(c);
    ShortNotMarket(c);
  }

  lemma ShortNotForm(c: string)
    requires |c| <= 8
    ensures c !in FormTargets()
  {
    FormNamesLong();
  }

  lemma ShortNotStat(c: string)
    requires |c| <= 8
    ensures c !in StatTargets()
  {
    StatNamesLong();
  }

  lemma ShortNotIndex(c: string)
    requires |c| <= 8
    ensures c !in IndexTargets()
  {
    IndexNamesLong();
  }

  lemma ShortNotMarket(c: string)
    requires |c| <= 8
    ensures c !in MarketTargets()
  {
  }

  /** Column `elo_home` of the result: each row's home rating before its match, rows in date order. */
  lemma GeneratedEloHome(cols: Columns, n: nat, order: seq<nat>, expectation: Expectation, i: nat)
    requires PipelineReady(cols, n) && IsDateOrder(order, cols["Date"]) && i < n
    ensures var r := Generated(cols, n, order, expectation);
            "elo_home" in r && r["elo_home"][i] == Num(PreMatch(SortedFixtures(cols, n, order), i, KFactor, expectation).0)
  {
    var sorted := Sorted(cols, n, order);
    assert FixturesOf(sorted, n) == SortedFixtures(cols, n, order);
    EloColumnsAt(sorted, n, KFactor, expectation, i);
    EloSurvives(cols, n, order, expectation, "elo_home", i);
  }

  /** Column `elo_away` of the result: each row's away rating before its match, rows in date order. */
  lemma GeneratedEloAway(cols: Columns, n: nat, order: seq<nat>, expectation: Expectation, i: nat)
    requires PipelineReady(cols, n) && IsDateOrder(order, cols["Date"]) && i < n
    ensures var r := Generated(cols, n, order, expectation);
            "elo_away" in r && r["elo_away"][i] == Num(PreMatch(SortedFixtures(cols, n, order), i, KFactor, expectation).1)
  {
    var sorted := Sorted(cols, n, order);
    assert FixturesOf(sorted, n) == SortedFixtures(cols, n, order);
    EloColumnsAt(sorted, n, KFactor, expectation, i);
    EloSurvives(cols, n, order, expectation, "elo_away", i);
  }

  /** Column `elo_diff` of the result: `elo_home - elo_away` on every row. */
  lemma GeneratedEloDiff(cols: Columns, n: nat, order: seq<nat>, expectation: Expectation, i: nat)
    requires PipelineReady(cols, n) && IsDateOrder(order, cols["Date"]) && i < n
    ensures var r := Generated(cols, n, order, expectation);
            && "elo_home" in r && "elo_away" in r && "elo_diff" in r
            && r["elo_home"][i].Num? && r["elo_away"][i].Num?
            && r["elo_diff"][i] == Sub(r["elo_home"][i], r["elo_away"][i])
  {
    var sorted := Sorted(cols, n, order);
    EloDiffAt(sorted, n, KFactor, expectation, i);
    EloSurvives(cols, n, order, expectation, "elo_home", i);
    EloSurvives(cols, n, order, expectation, "elo_away", i);
    EloSurvives(cols, n, order, expectation, "elo_diff", i);
  }

  /** An Elo cell reaches the result as the Elo stage wrote it. */
  lemma EloSurvives(cols: Columns, n: nat, order: seq<nat>, expectation: Expectation, c: string, i: nat)
    requires PipelineReady(cols, n) && IsDateOrder(order, cols["Date"]) && i < n && c in EloTargets()
    requires EloColumns(Sorted(cols, n, order), n, KFactor, expectation)[c][i].Num?
    ensures var r := Generated(cols, n, order, expectation);
            c in r && r[c][i] == EloColumns(Sorted(cols, n, order), n, KFactor, expectation)[c][i]
  {
    IndexedElo(cols, n, order, expectation);
    EloNamesKept();
    GeneratedFromIndexed(cols, n, order, expectation, c, i);
  }

  /** The statistics, index and form stages leave the Elo columns alone. */
  lemma IndexedElo(cols: Columns, n: nat, order: seq<nat>, expectation: Expectation)
    requires PipelineReady(cols, n) && IsDateOrder(order, cols["Date"])
    ensures var indexed := Indexed(cols, n, order, expectation);
            var rated := EloColumns(Sorted(cols, n, order), n, KFactor, expectation);
            forall c :: c in EloTargets() ==> c in indexed && indexed[c] == rated[c]
  {
    EloNamesKept();
  }

  /** The market stage keeps a column it does not write, filling NaN when the odds are there. */
  lemma GeneratedFromIndexed(cols: Columns, n: nat, order: seq<nat>, expectation: Expectation, c: string, i: nat)
    requires PipelineReady(cols, n) && IsDateOrder(order, cols["Date"]) && i < n
    requires c in Indexed(cols, n, order, expectation) && c !in MarketTargets()
    ensures var indexed := Indexed(cols, n, order, expectation);
            var r := Generated(cols, n, order, expectation);
            c in r && r[c][i] == if HasOdds(indexed) then Clean(indexed[c][i]) else indexed[c][i]
  {
    var indexed := Indexed(cols, n, order, expectation);
    if HasOdds(indexed) {
      MarketFrame(indexed, n);
    }
  }

  /** With the odds, no cell of the result is NaN or infinite. */
  lemma GeneratedClean(cols: Columns, n: nat, order: seq<nat>, expectation: Expectation)
    requires PipelineReady(cols, n) && IsDateOrder(order, cols["Date"]) && HasOdds(cols)
    ensures var r := Generated(cols, n, order, expectation);
            forall c, i :: c in r && 0 <= i < |r[c]| ==> !r[c][i].Inf? && !r[c][i].Missing?
  {
    OddsKept(cols, n, order, expectation);
  }

  /** `generate_features`: a sorted copy of the frame with every feature added. */
  method GenerateFeatures(df: Frame, expectation: Expectation) returns (out: Frame, order: seq<nat>)
    requires df.Valid() && PipelineReady(df.columns, df.rows)
    ensures fresh(out) && out.Valid() && out.rows == df.rows
    ensures IsDateOrder(order, df.columns["Date"])
    ensures out.columns == Generated(df.columns, df.rows, order, expectation)
  {
    var cols, n := df.columns, df.rows;
    order := SortRows(cols["Date"], n);
    DateOrderExists(cols["Date"]);
    var sorted := Sorted(cols, n, order);
    out := new Frame(sorted, n);
    AddFeatures(out, expectation);
    assert out.columns == Featured(sorted, n, expectation);
  }

  /** The five feature stages, one after the other, on the sorted copy. */
  method AddFeatures(df: Frame, expectation: Expectation)
    requires df.Valid() && MatchColumns(df.columns, df.rows)
    modifies df
    ensures df.Valid() && df.rows == old(df.rows)
    ensures df.columns == Featured(old(df.columns), df.rows, expectation)
  {
    var n := df.rows;
    ghost var sorted := df.columns;
    EloNamesNew();
    FormNamesNew();
    AddEloFeatures(df, KFactor, expectation);
    KeepsMatchColumns(sorted, df.columns, n, EloTargets());
    AddFormFeatures(df, Window);
    assert df.columns == RatedAndFormed(sorted, n, expectation);
    StatsReadyForIndex(df.columns, n);
    AddStatFeatures(df, Window);
    AddIndexFeatures(df);
    assert df.columns == StatsAndIndices(RatedAndFormed(sorted, n, expectation), n);
    if "B365H" in df.columns {
      AddMarketFeatures(df);
    }
  }
}
