/**
 * The resolution half of calculate_market_values.py: a lineup name is resolved to
 * a market value inside one (season, team) scope of the players table by a layered
 * policy (exact name, then token overlap, then character similarity), lineups are
 * summed, and the team totals are written into the feature table.
 */
module PlayerMatching {
  import opened Common
  import opened Values
  import opened MarketValues
  import opened Frames

  /** `difflib.SequenceMatcher(None, a, b).ratio()`: a similarity in [0, 1]. */
  type Similarity = r: real | 0.0 <= r <= 1.0

  /** One row of the players table once `team_norm`, `name_norm` and `market_value` are set. */
  datatype PlayerRow = PlayerRow(season: Value, teamNorm: string, nameNorm: string, marketValue: real)

  /** The best token score at or above which the token match is kept. */
  const TokenThreshold: real := 0.6

  /** The final score at or above which the chosen row's value is returned. */
  const AcceptThreshold: real := 0.55

  /** The mask `(Season == season) & (team_norm == team_norm)`. */
  predicate InScope(p: PlayerRow, season: Value, teamNorm: string)
  {
    PyEq(p.season, season) && p.teamNorm == teamNorm
  }

  /** `players_df.loc[mask]`: the rows in scope, in table order. */
  function Roster(players: seq<PlayerRow>, season: Value, teamNorm: string): (r: seq<PlayerRow>)
    ensures |r| <= |players|
    ensures forall k :: 0 <= k < |r| ==> InScope(r[k], season, teamNorm) && r[k] in players
    ensures forall p :: p in players && InScope(p, season, teamNorm) ==> p in r
  {
    if players == [] then []
    else
      var rest := Roster(players[1..], season, teamNorm);
      assert forall p :: p in players[1..] ==> p in players;
      if InScope(players[0], season, teamNorm) then [players[0]] + rest else rest
  }

  /** The position of the first row whose normalised name is `pname`, if any. */
  function FirstNamed(roster: seq<PlayerRow>, pname: string): (r: Option<nat>)
    ensures r.None? <==> forall k :: 0 <= k < |roster| ==> roster[k].nameNorm != pname
    ensures r.Some? ==> r.value < |roster| && roster[r.value].nameNorm == pname
    ensures r.Some? ==> forall k :: 0 <= k < r.value ==> roster[k].nameNorm != pname
  {
    if roster == [] then None
    else if roster[0].nameNorm == pname then Some(0)
    else
      match FirstNamed(roster[1..], pname)
      case None => None
      case Some(k) => Some(k + 1)
  }

  /** `idxmax`: the position of the largest score, the first one on ties. */
  function ArgMax(xs: seq<real>): (i: nat)
    requires xs != []
    ensures i < |xs|
    ensures forall k :: 0 <= k < |xs| ==> xs[k] <= xs[i]
    ensures forall k :: 0 <= k < i ==> xs[k] < xs[i]
  {
    if |xs| == 1 then 0
    else
      var front := xs[..|xs| - 1];
      var i := ArgMax(front);
      assert forall k :: 0 <= k < |front| ==> front[k] == xs[k];
      if xs[|xs| - 1] > xs[i] then |xs| - 1 else i
  }

  /** The token score of `pname` against every roster name. */
  function TokenScores(pname: string, roster: seq<PlayerRow>): (r: seq<real>)
    ensures |r| == |roster|
    ensures forall k :: 0 <= k < |r| ==> r[k] == TokenSetScore(pname, roster[k].nameNorm)
  {
    seq(|roster|, k requires 0 <= k < |roster| => TokenSetScore(pname, roster[k].nameNorm))
  }

  /** The character similarity of `pname` to every roster name. */
  function FuzzyScores(pname: string, roster: seq<PlayerRow>, ratio: (string, string) -> Similarity): (r: seq<real>)
    ensures |r| == |roster|
    ensures forall k :: 0 <= k < |r| ==> r[k] == ratio(pname, roster[k].nameNorm)
  {
    seq(|roster|, k requires 0 <= k < |roster| => ratio(pname, roster[k].nameNorm) as real)
  }

  /**
   * The scoring stage: the best token row and its score, replaced by the best
   * similarity row and its score when the token score falls short of 0.6.
   */
  function Candidate(pname: string, roster: seq<PlayerRow>, ratio: (string, string) -> Similarity): (c: (nat, real))
    requires roster != []
    ensures c.0 < |roster|
  {
    var tokens := TokenScores(pname, roster);
    var i := ArgMax(tokens);
    if tokens[i] < TokenThreshold then
      var fuzzy := FuzzyScores(pname, roster, ratio);
      var j := ArgMax(fuzzy);
      (j, fuzzy[j])
    else
      (i, tokens[i])
  }

  /**
   * `match_player_value`: 0 for a name that normalises to nothing or an empty
   * scope; the first exact name's value; else the scored candidate's value when
   * its score reaches 0.55, and 0 otherwise.  Whatever it returns is 0 or the
   * value of a row in scope.
   */
  function MatchPlayerValue(pnameRaw: Value, season: Value, teamNorm: string, players: seq<PlayerRow>,
                            u: UnicodeTables, ratio: (string, string) -> Similarity): (r: real)
    ensures r == 0.0 || exists k :: 0 <= k < |players| && InScope(players[k], season, teamNorm)
                                   && r == players[k].marketValue
  {
    var roster := Roster(players, season, teamNorm);
    var r := Resolve(NormalizeText(pnameRaw, u), roster, ratio);
    RosterValue(players, season, teamNorm, roster, r);
    r
  }

  /** The layered policy on a normalised name and its scope's roster. */
  function Resolve(pname: string, roster: seq<PlayerRow>, ratio: (string, string) -> Similarity): (r: real)
    ensures r == 0.0 || exists k :: 0 <= k < |roster| && r == roster[k].marketValue
  {
    if pname == [] || roster == [] then 0.0
    else match FirstNamed(roster, pname)
      case Some(k) => roster[k].marketValue
      case None =>
        var c := Candidate(pname, roster, ratio);
        if c.1 >= AcceptThreshold then roster[c.0].marketValue else 0.0
  }

  /** A value taken from the roster is the value of a row in scope. */
  lemma RosterValue(players: seq<PlayerRow>, season: Value, teamNorm: string, roster: seq<PlayerRow>, r: real)
    requires roster == Roster(players, season, teamNorm)
    requires r == 0.0 || exists k :: 0 <= k < |roster| && r == roster[k].marketValue
    ensures r == 0.0 || exists k :: 0 <= k < |players| && InScope(players[k], season, teamNorm)
                                   && r == players[k].marketValue
  {
    if r != 0.0 {
      var k :| 0 <= k < |roster| && r == roster[k].marketValue;
      var j :| 0 <= j < |players| && players[j] == roster[k];
    }
  }

  /** `i` holds the largest score, and no earlier position holds as large a one. */
  predicate FirstMax(xs: seq<real>, i: nat)
  {
    i < |xs| && (forall k :: 0 <= k < |xs| ==> xs[k] <= xs[i]) && (forall k :: 0 <= k < i ==> xs[k] < xs[i])
  }

  /** `idxmax` picks exactly the first position of the maximum. */
  lemma ArgMaxIsFirstMax(xs: seq<real>, i: nat)
    requires xs != []
    ensures FirstMax(xs, i) <==> ArgMax(xs) == i
  {
    var m := ArgMax(xs);
    assert FirstMax(xs, m);
  }

  /** No name, or no row in scope, resolves to 0. */
  lemma MatchNothing(pnameRaw: Value, season: Value, teamNorm: string, players: seq<PlayerRow>,
                     u: UnicodeTables, ratio: (string, string) -> Similarity)
    requires NormalizeText(pnameRaw, u) == []
          || forall k :: 0 <= k < |players| ==> !InScope(players[k], season, teamNorm)
    ensures MatchPlayerValue(pnameRaw, season, teamNorm, players, u, ratio) == 0.0
  {
    var roster := Roster(players, season, teamNorm);
    if roster != [] {
      assert roster[0] in players;
    }
  }

  /** An exact normalised name in scope wins before any scoring: the first such row's value. */
  lemma MatchExact(pnameRaw: Value, season: Value, teamNorm: string, players: seq<PlayerRow>,
                   u: UnicodeTables, ratio: (string, string) -> Similarity, k: nat)
    requires NormalizeText(pnameRaw, u) != []
    requires var roster := Roster(players, season, teamNorm);
             && k < |roster| && roster[k].nameNorm == NormalizeText(pnameRaw, u)
             && forall j :: 0 <= j < k ==> roster[j].nameNorm != NormalizeText(pnameRaw, u)
    ensures MatchPlayerValue(pnameRaw, season, teamNorm, players, u, ratio)
         == Roster(players, season, teamNorm)[k].marketValue
  {
    var roster := Roster(players, season, teamNorm);
    var f := FirstNamed(roster, NormalizeText(pnameRaw, u));
    assert f.Some?;
    if f.value < k {
    } else if f.value > k {
    }
  }

  /**
   * Without an exact name, a best token score of at least 0.6 is accepted: the value
   * of the first row attaining it.
   */
  lemma MatchByTokens(pnameRaw: Value, season: Value, teamNorm: string, players: seq<PlayerRow>,
                      u: UnicodeTables, ratio: (string, string) -> Similarity, i: nat)
    requires var pname := NormalizeText(pnameRaw, u);
             var roster := Roster(players, season, teamNorm);
             && pname != []
             && (forall k :: 0 <= k < |roster| ==> roster[k].nameNorm != pname)
             && FirstMax(TokenScores(pname, roster), i)
             && TokenScores(pname, roster)[i] >= TokenThreshold
    ensures MatchPlayerValue(pnameRaw, season, teamNorm, players, u, ratio)
         == Roster(players, season, teamNorm)[i].marketValue
  {
    ResolveByTokens(NormalizeText(pnameRaw, u), Roster(players, season, teamNorm), ratio, i);
  }

  /** `MatchByTokens` on the normalised name and the scope's roster. */
  lemma ResolveByTokens(pname: string, roster: seq<PlayerRow>, ratio: (string, string) -> Similarity, i: nat)
    requires pname != [] && (forall k :: 0 <= k < |roster| ==> roster[k].nameNorm != pname)
    requires FirstMax(TokenScores(pname, roster), i) && TokenScores(pname, roster)[i] >= TokenThreshold
    ensures Resolve(pname, roster, ratio) == roster[i].marketValue
  {
    ArgMaxIsFirstMax(TokenScores(pname, roster), i);
  }

  /**
   * Without an exact name and with every token score below 0.6, the first row of
   * highest similarity is chosen, and its value is returned only at a similarity of
   * at least 0.55.
   */
  lemma MatchBySimilarity(pnameRaw: Value, season: Value, teamNorm: string, players: seq<PlayerRow>,
                          u: UnicodeTables, ratio: (string, string) -> Similarity, j: nat)
    requires var pname := NormalizeText(pnameRaw, u);
             var roster := Roster(players, season, teamNorm);
             && pname != []
             && (forall k :: 0 <= k < |roster| ==> roster[k].nameNorm != pname)
             && (forall k :: 0 <= k < |roster| ==> TokenSetScore(pname, roster[k].nameNorm) < TokenThreshold)
             && FirstMax(FuzzyScores(pname, roster, ratio), j)
    ensures var roster := Roster(players, season, teamNorm);
            MatchPlayerValue(pnameRaw, season, teamNorm, players, u, ratio)
            == if ratio(NormalizeText(pnameRaw, u), roster[j].nameNorm) >= AcceptThreshold
               then roster[j].marketValue else 0.0
  {
    ResolveBySimilarity(NormalizeText(pnameRaw, u), Roster(players, season, teamNorm), ratio, j);
  }

  /** `MatchBySimilarity` on the normalised name and the scope's roster. */
  lemma ResolveBySimilarity(pname: string, roster: seq<PlayerRow>, ratio: (string, string) -> Similarity, j: nat)
    requires pname != [] && (forall k :: 0 <= k < |roster| ==> roster[k].nameNorm != pname)
    requires forall k :: 0 <= k < |roster| ==> TokenSetScore(pname, roster[k].nameNorm) < TokenThreshold
    requires FirstMax(FuzzyScores(pname, roster, ratio), j)
    ensures Resolve(pname, roster, ratio)
         == if ratio(pname, roster[j].nameNorm) >= AcceptThreshold then roster[j].marketValue else 0.0
  {
    var tokens := TokenScores(pname, roster);
    assert tokens[ArgMax(tokens)] < TokenThreshold;
    var fuzzy := FuzzyScores(pname, roster, ratio);
    ArgMaxIsFirstMax(fuzzy, j);
    assert Candidate(pname, roster, ratio) == (j, fuzzy[j]);
  }

  /** Rows outside the (season, team) scope are never read: adding them changes nothing. */
  lemma MatchIgnoresOtherRows(pnameRaw: Value, season: Value, teamNorm: string, players: seq<PlayerRow>,
                              others: seq<PlayerRow>, u: UnicodeTables, ratio: (string, string) -> Similarity)
    requires forall k :: 0 <= k < |others| ==> !InScope(others[k], season, teamNorm)
    ensures MatchPlayerValue(pnameRaw, season, teamNorm, players + others, u, ratio)
         == MatchPlayerValue(pnameRaw, season, teamNorm, players, u, ratio)
    ensures MatchPlayerValue(pnameRaw, season, teamNorm, others + players, u, ratio)
         == MatchPlayerValue(pnameRaw, season, teamNorm, players, u, ratio)
  {
    RosterAppend(players, others, season, teamNorm);
    RosterAppend(others, players, season, teamNorm);
    RosterOutside(others, season, teamNorm);
    assert Roster(players, season, teamNorm) + [] == Roster(players, season, teamNorm);
    assert [] + Roster(players, season, teamNorm) == Roster(players, season, teamNorm);
  }

  lemma {:induction false} RosterAppend(a: seq<PlayerRow>, b: seq<PlayerRow>, season: Value, teamNorm: string)
    ensures Roster(a + b, season, teamNorm) == Roster(a, season, teamNorm) + Roster(b, season, teamNorm)
  {
    if a == [] {
      assert a + b == b;
    } else {
      assert (a + b)[1..] == a[1..] + b;
      RosterAppend(a[1..], b, season, teamNorm);
    }
  }

  lemma {:induction false} RosterOutside(others: seq<PlayerRow>, season: Value, teamNorm: string)
    requires forall k :: 0 <= k < |others| ==> !InScope(others[k], season, teamNorm)
    ensures Roster(others, season, teamNorm) == []
  {
    if others != [] {
      RosterOutside(others[1..], season, teamNorm);
    }
  }

  // ------------------------------------------------------------------ team_value

  /** The resolved value of every lineup entry, in lineup order. */
  function PlayerValues(names: seq<Value>, teamNorm: string, season: Value, players: seq<PlayerRow>,
                        u: UnicodeTables, ratio: (string, string) -> Similarity): (r: seq<real>)
    ensures |r| == |names|
    ensures forall k :: 0 <= k < |r| ==> r[k] == MatchPlayerValue(names[k], season, teamNorm, players, u, ratio)
  {
    Resolved(names, Resolver(teamNorm, season, players, u, ratio))
  }

  /** `match_player_value` for one team and season, as a function of the lineup entry. */
  function Resolver(teamNorm: string, season: Value, players: seq<PlayerRow>,
                    u: UnicodeTables, ratio: (string, string) -> Similarity): (f: Value -> real)
    ensures forall x :: f(x) == MatchPlayerValue(x, season, teamNorm, players, u, ratio)
  {
    x => MatchPlayerValue(x, season, teamNorm, players, u, ratio)
  }

  /** `f` applied to every entry, in order. */
  function Resolved(names: seq<Value>, f: Value -> real): (r: seq<real>)
    ensures |r| == |names| && forall k :: 0 <= k < |r| ==> r[k] == f(names[k])
  {
    seq(|names|, k requires 0 <= k < |names| => f(names[k]))
  }

  /** Resolving a concatenation resolves each part. */
  lemma ResolvedAppend(a: seq<Value>, b: seq<Value>, f: Value -> real)
    ensures Resolved(a + b, f) == Resolved(a, f) + Resolved(b, f)
  {
    var v, w := Resolved(a + b, f), Resolved(a, f) + Resolved(b, f);
    forall k | 0 <= k < |v| ensures v[k] == w[k] {
      if k < |a| {
        assert (a + b)[k] == a[k];
      } else {
        assert (a + b)[k] == b[k - |a|];
      }
    }
  }

  /** What `team_value` computes: 0 unless the lineup is a non-empty list, else the sum over its entries. */
  function LineupValue(lineup: Value, teamNorm: string, season: Value, players: seq<PlayerRow>,
                       u: UnicodeTables, ratio: (string, string) -> Similarity): real
  {
    if !lineup.List? || lineup.items == [] then 0.0
    else Sum(PlayerValues(lineup.items, teamNorm, season, players, u, ratio))
  }

  /** `team_value(lineup, team_norm, season, players_df)`: the accumulator loop. */
  method TeamValue(lineup: Value, teamNorm: string, season: Value, players: seq<PlayerRow>,
                   u: UnicodeTables, ratio: (string, string) -> Similarity) returns (total: real)
    ensures total == LineupValue(lineup, teamNorm, season, players, u, ratio)
  {
    if !lineup.List? || lineup.items == [] {
      return 0.0;
    }
    var names := lineup.items;
    ghost var values := PlayerValues(names, teamNorm, season, players, u, ratio);
    total := 0.0;
    for i := 0 to |names|
      invariant total == Sum(values[..i])
    {
      total := total + MatchPlayerValue(names[i], season, teamNorm, players, u, ratio);
      assert values[..i + 1][..i] == values[..i];
    }
    assert values[..|names|] == values;
  }

  /** A lineup's value is the sum of its parts' values, so a repeated name counts each time. */
  lemma {:induction false} LineupValueAppend(a: seq<Value>, b: seq<Value>, teamNorm: string, season: Value,
                                             players: seq<PlayerRow>, u: UnicodeTables,
                                             ratio: (string, string) -> Similarity)
    ensures LineupValue(List(a + b), teamNorm, season, players, u, ratio)
         == LineupValue(List(a), teamNorm, season, players, u, ratio)
          + LineupValue(List(b), teamNorm, season, players, u, ratio)
  {
    var va := PlayerValues(a, teamNorm, season, players, u, ratio);
    var vb := PlayerValues(b, teamNorm, season, players, u, ratio);
    if a == [] {
      assert a + b == b;
    } else if b == [] {
      assert a + b == a;
    } else {
      PlayerValuesAppend(a, b, teamNorm, season, players, u, ratio);
      SumAppend(va, vb);
    }
  }

  lemma PlayerValuesAppend(a: seq<Value>, b: seq<Value>, teamNorm: string, season: Value,
                           players: seq<PlayerRow>, u: UnicodeTables, ratio: (string, string) -> Similarity)
    ensures PlayerValues(a + b, teamNorm, season, players, u, ratio)
         == PlayerValues(a, teamNorm, season, players, u, ratio) + PlayerValues(b, teamNorm, season, players, u, ratio)
  {
    ResolvedAppend(a, b, Resolver(teamNorm, season, players, u, ratio));
  }

  /** A name listed twice is counted twice. */
  lemma LineupValueRepeated(x: Value, teamNorm: string, season: Value, players: seq<PlayerRow>,
                            u: UnicodeTables, ratio: (string, string) -> Similarity)
    ensures LineupValue(List([x, x]), teamNorm, season, players, u, ratio)
         == 2.0 * MatchPlayerValue(x, season, teamNorm, players, u, ratio)
  {
    LineupValueAppend([x], [x], teamNorm, season, players, u, ratio);
    assert [x] + [x] == [x, x];
    var v := PlayerValues([x], teamNorm, season, players, u, ratio);
    assert v[..0] == [];
    assert Sum(v) == Sum([]) + v[0];
  }

  /** With non-negative market values, a lineup's value is non-negative. */
  lemma LineupValueNonNegative(lineup: Value, teamNorm: string, season: Value, players: seq<PlayerRow>,
                               u: UnicodeTables, ratio: (string, string) -> Similarity)
    requires forall k :: 0 <= k < |players| ==> players[k].marketValue >= 0.0
    ensures LineupValue(lineup, teamNorm, season, players, u, ratio) >= 0.0
  {
    if lineup.List? && lineup.items != [] {
      SumNonNegative(PlayerValues(lineup.items, teamNorm, season, players, u, ratio));
    }
  }

  // ------------------------------------------------------ add_team_values_to_features

  /** `normalize_text` mapped over a column. */
  function NormColumn(col: seq<Value>, u: UnicodeTables): (r: seq<Value>)
    ensures |r| == |col|
    ensures forall i :: 0 <= i < |r| ==> r[i].Str? && IsNormalized(r[i].s)
  {
    seq(|col|, i requires 0 <= i < |col| => Str(NormalizeText(col[i], u)))
  }

  /** A market-value cell `to_numeric(errors="coerce")` can read: a number, a missing value or text. */
  predicate Coercible(v: Value)
  {
    v.Num? || v.Missing? || v.Str?
  }

  /**
   * `pd.to_numeric(v, errors="coerce")` then `fillna(0)` on one cell; `toNumber`
   * stands for the numeric reading of a text, None when it is not a number.
   */
  function MarketValueCell(v: Value, toNumber: string -> Option<real>): (r: real)
    requires Coercible(v)
    ensures v.Num? ==> r == v.x
    ensures v.Missing? ==> r == 0.0
  {
    match v
    case Num(x) => x
    case Str(s) => (match toNumber(s) case Some(x) => x case None => 0.0)
    case Missing => 0.0
  }

  function MarketColumn(col: seq<Value>, toNumber: string -> Option<real>): (r: seq<Value>)
    requires forall i :: 0 <= i < |col| ==> Coercible(col[i])
    ensures |r| == |col| && forall i :: 0 <= i < |r| ==> r[i].Num?
  {
    seq(|col|, i requires 0 <= i < |col| => Num(MarketValueCell(col[i], toNumber)))
  }

  /** `parse_list` mapped over a lineup column whose every cell parses. */
  function LineupColumn(col: seq<Value>, literalEval: string -> Option<Value>, show: Value -> string): (r: seq<Value>)
    requires forall i :: 0 <= i < |col| ==> ParseList(col[i], literalEval, show).Some?
    ensures |r| == |col| && forall i :: 0 <= i < |r| ==> r[i].List?
  {
    seq(|col|, i requires 0 <= i < |col| => List(ParseList(col[i], literalEval, show).value))
  }

  /** The players table as rows, read from its `Season`, `team_norm`, `name_norm` and `market_value` columns. */
  function PlayerTable(season: seq<Value>, teamNorm: seq<Value>, nameNorm: seq<Value>, value: seq<Value>): (r: seq<PlayerRow>)
    requires |teamNorm| == |season| && |nameNorm| == |season| && |value| == |season|
    requires forall i :: 0 <= i < |season| ==> teamNorm[i].Str? && nameNorm[i].Str? && value[i].Num?
    ensures |r| == |season|
    ensures forall i :: 0 <= i < |r| ==> r[i] == PlayerRow(season[i], teamNorm[i].s, nameNorm[i].s, value[i].x)
  {
    seq(|season|, i requires 0 <= i < |season| => PlayerRow(season[i], teamNorm[i].s, nameNorm[i].s, value[i].x))
  }

  /** The team value of every feature row, as `features.apply(..., axis=1)` computes it. */
  function TeamValueColumn(lineups: seq<Value>, teamNorms: seq<Value>, seasons: seq<Value>, players: seq<PlayerRow>,
                           u: UnicodeTables, ratio: (string, string) -> Similarity): (r: seq<Value>)
    requires |teamNorms| == |lineups| && |seasons| == |lineups|
    requires forall i :: 0 <= i < |teamNorms| ==> teamNorms[i].Str?
    ensures |r| == |lineups| && forall i :: 0 <= i < |r| ==> r[i].Num?
  {
    seq(|lineups|, i requires 0 <= i < |lineups| =>
      Num(LineupValue(lineups[i], teamNorms[i].s, seasons[i], players, u, ratio)))
  }

  /** The row loop behind `features.apply`: `team_value` on every row. */
  method TeamValuesOf(lineups: seq<Value>, teamNorms: seq<Value>, seasons: seq<Value>, players: seq<PlayerRow>,
                      u: UnicodeTables, ratio: (string, string) -> Similarity) returns (col: seq<Value>)
    requires |teamNorms| == |lineups| && |seasons| == |lineups|
    requires forall i :: 0 <= i < |teamNorms| ==> teamNorms[i].Str?
    ensures col == TeamValueColumn(lineups, teamNorms, seasons, players, u, ratio)
  {
    col := [];
    for i := 0 to |lineups|
      invariant col == TeamValueColumn(lineups[..i], teamNorms[..i], seasons[..i], players, u, ratio)
    {
      var v := TeamValue(lineups[i], teamNorms[i].s, seasons[i], players, u, ratio);
      col := col + [Num(v)];
      assert lineups[..i + 1][..i] == lineups[..i];
    }
    assert lineups[..|lineups|] == lineups;
    assert teamNorms[..|lineups|] == teamNorms;
    assert seasons[..|lineups|] == seasons;
  }

  /** The columns `add_team_values_to_features` reads, and the cells it demands of them. */
  predicate Prepared(features: Columns, players: Columns, literalEval: string -> Option<Value>, show: Value -> string)
  {
    && "team" in players && "name" in players && "market_value" in players && "Season" in players
    && (forall i :: 0 <= i < |players["market_value"]| ==> Coercible(players["market_value"][i]))
    && "HomeTeam" in features && "AwayTeam" in features && "Season" in features
    && "Home_Lineup_List" in features && "Away_Lineup_List" in features
    && (forall i :: 0 <= i < |features["Home_Lineup_List"]| ==>
          ParseList(features["Home_Lineup_List"][i], literalEval, show).Some?)
    && (forall i :: 0 <= i < |features["Away_Lineup_List"]| ==>
          ParseList(features["Away_Lineup_List"][i], literalEval, show).Some?)
  }

  /** The players table that `team_value` consults once the players columns are normalised. */
  function PreparedPlayers(players: Columns, n: nat, u: UnicodeTables, toNumber: string -> Option<real>): seq<PlayerRow>
    requires "team" in players && "name" in players && "market_value" in players && "Season" in players
    requires Rectangular(players, n)
    requires forall i :: 0 <= i < |players["market_value"]| ==> Coercible(players["market_value"][i])
  {
    PlayerTable(players["Season"], NormColumn(players["team"], u), NormColumn(players["name"], u),
                MarketColumn(players["market_value"], toNumber))
  }

  /**
   * `add_team_values_to_features(features, players_df)`: normalises the players'
   * team and name columns and coerces their market values, normalises the feature
   * rows' team names, parses their lineups, and writes the resolved home and away
   * team values, all in place.
   */
  method AddTeamValuesToFeatures(features: Frame, players: Frame, u: UnicodeTables,
                                 ratio: (string, string) -> Similarity, literalEval: string -> Option<Value>,
                                 show: Value -> string, toNumber: string -> Option<real>)
    requires features != players && features.Valid() && players.Valid()
    requires Prepared(features.columns, players.columns, literalEval, show)
    modifies features, players
    ensures features.Valid() && players.Valid()
    ensures features.rows == old(features.rows) && players.rows == old(players.rows)
    ensures players.columns == old(players.columns)
      ["team_norm" := NormColumn(old(players.columns["team"]), u)]
      ["name_norm" := NormColumn(old(players.columns["name"]), u)]
      ["market_value" := MarketColumn(old(players.columns["market_value"]), toNumber)]
    ensures var table := PreparedPlayers(old(players.columns), old(players.rows), u, toNumber);
            var homeNorm := NormColumn(old(features.columns["HomeTeam"]), u);
            var awayNorm := NormColumn(old(features.columns["AwayTeam"]), u);
            var homeLineups := LineupColumn(old(features.columns["Home_Lineup_List"]), literalEval, show);
            var awayLineups := LineupColumn(old(features.columns["Away_Lineup_List"]), literalEval, show);
            var seasons := old(features.columns["Season"]);
            features.columns == old(features.columns)
              ["home_team_norm" := homeNorm]
              ["away_team_norm" := awayNorm]
              ["Home_Lineup_List" := homeLineups]
              ["Away_Lineup_List" := awayLineups]
              ["home_team_value" := TeamValueColumn(homeLineups, homeNorm, seasons, table, u, ratio)]
              ["away_team_value" := TeamValueColumn(awayLineups, awayNorm, seasons, table, u, ratio)]
  {
    ghost var cols := players.columns;
    players.Assign("team_norm", NormColumn(players.columns["team"], u));
    players.Assign("name_norm", NormColumn(players.columns["name"], u));
    players.Assign("market_value", MarketColumn(players.columns["market_value"], toNumber));
    var table := PlayerTable(players.columns["Season"], players.columns["team_norm"],
                             players.columns["name_norm"], players.columns["market_value"]);
    assert table == PreparedPlayers(cols, players.rows, u, toNumber);

    ghost var fcols := features.columns;
    features.Assign("home_team_norm", NormColumn(features.columns["HomeTeam"], u));
    features.Assign("away_team_norm", NormColumn(features.columns["AwayTeam"], u));
    features.Assign("Home_Lineup_List", LineupColumn(features.columns["Home_Lineup_List"], literalEval, show));
    features.Assign("Away_Lineup_List", LineupColumn(features.columns["Away_Lineup_List"], literalEval, show));

    var home := TeamValuesOf(features.columns["Home_Lineup_List"], features.columns["home_team_norm"],
                             features.columns["Season"], table, u, ratio);
    features.Assign("home_team_value", home);
    var away := TeamValuesOf(features.columns["Away_Lineup_List"], features.columns["away_team_norm"],
                             features.columns["Season"], table, u, ratio);
    features.Assign("away_team_value", away);
  }
}
