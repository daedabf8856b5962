# LaLiga match features and lineup market values, in Dafny

This project models the computational core of a football-prediction repository. Three
parts are modelled.

**Match feature engine** (`src/feature_engineering.py`). It sorts a season's match table by
date, then adds features column by column:
- Elo ratings before each match, from a per-team rating map updated in place after every row;
- trailing per-team rolling averages of goals and match statistics, which exclude the
  current match and are missing until the team has played `W` earlier matches;
- attack, defence and discipline indices;
- bookmaker odds turned into normalised outcome probabilities, after which every
  infinite or missing cell of the frame is filled with 0.

**Player identity resolution and team market value** (`src/calculate_market_values.py`):
- name normalisation;
- parsing of scraped market-value strings such as "1,5 mill.";
- parsing of stored lineup cells;
- an asymmetric token-overlap score;
- the layered matching policy for a lineup name inside its (season, team) scope:
  exact name first, then token overlap at 0.6 or more, else character similarity,
  accepted at 0.55;
- the sum of a lineup's values, written into the feature frame in place.

**Lineup href resolution** (`src/players_info_preparation.py`):
- the href de-duplication of the players table;
- the nested loops that turn lineups of player hrefs into lists of names;
- the flattening of per-round match lists into match records;
- `concat_dfs`, which keeps three columns and adds the two name-list columns.

Modules:
- `Common`: `Option`, sums and powers of ten.
- `Values`: a pandas cell or Python value: a finite float, an infinity, NaN/None, a
  string, a list, a tuple or a dict. It also gives IEEE-style arithmetic on cells, pandas' `==`,
  and Python iteration and `dict.get`.
- `Frames`: a DataFrame as a `class` whose column map is updated in place.
- `PyText`: the `str` methods the code uses.
- `MarketValues` and `PlayerMatching`: `calculate_market_values.py`.
- `Rolling`, `Elo`, `Features`, `Sorting` and `Pipeline`: `feature_engineering.py`.
- `Lineups`: `players_info_preparation.py`.

Where the code updates state in place, the model does the same:
- the Elo loop updates a `map` step by step;
- `team_value` and the lineup loops accumulate;
- every `add_*` stage assigns columns of a `Frame`.

Each such method is proved equal to a specification function. The properties are proved
about those functions.

Library behaviour is passed in as parameters:
- the Unicode case and decomposition tables;
- `difflib.SequenceMatcher.ratio`, a function into [0, 1];
- `ast.literal_eval`, which may fail;
- `str` of a non-string value;
- `pd.to_numeric` on text;
- the Elo expectation `1 / (1 + 10 ** (d / 400))`, abstracted as a function into (0, 1).

The docstring of `rolling_feature` (src/feature_engineering.py:16) says the feature uses
the 7 previous matches. The call `rolling(window)` at src/feature_engineering.py:22 keeps
pandas' default `min_periods`, which equals `window`. A team's first `window` matches
therefore get NaN, and every later match gets the mean of exactly `window` earlier values
(`Rolling.RollingMissingEarly`, `Rolling.RollingSteady`).

## Model

| member | source | states |
|---|---|---|
| Values.Add | src/feature_engineering.py:106-111 | sum of two float cells: the real sum of two numbers, NaN when either is NaN |
| Values.Sub | src/feature_engineering.py:56 | difference of two float cells: the real difference of two numbers, NaN when either is NaN |
| Values.Scale | src/feature_engineering.py:107 | a positive constant times a cell: the product on numbers, NaN exactly for NaN |
| Values.Div | src/feature_engineering.py:139 | division of cells: the real quotient for a non-zero divisor, NaN when either side is NaN |
| Values.MaxSkipNa | src/feature_engineering.py:146 | `max(axis=1)` of two cells: one of them, no smaller than either non-NaN cell, NaN only when both are NaN |
| Values.MinSkipNa | src/feature_engineering.py:146 | `min(axis=1)` of two cells: one of them, no larger than either non-NaN cell, NaN only when both are NaN |
| Values.SumSkipNa | src/feature_engineering.py:141 | `sum(axis=1)` of three cells: their real sum when all three are numbers |
| Values.Clean | src/feature_engineering.py:148-149 | after `replace` and `fillna(0)` a cell is neither infinite nor NaN, and a finite cell is unchanged |
| Values.Iterate | src/players_info_preparation.py:97 | `for x in v` visits the items of a list or a tuple; a float is not iterable |
| Values.Get | src/players_info_preparation.py:68-72 | `dict.get`: None for an absent key; the first entry's value when its key matches |
| Common.SumAppend | src/calculate_market_values.py:105-107 | the accumulated total of two runs of values is the sum of their totals |
| Common.SumNonNegative | src/calculate_market_values.py:105-107 | a total of non-negative values is non-negative |
| Frames.Difference | src/feature_engineering.py:70-71 | a column minus a column: the row-by-row difference of numbers, NaN on rows where either is NaN |
| Frames.CleanColumns | src/feature_engineering.py:148-149 | every column keeps its length; no cell is infinite or NaN; finite cells are kept and the others become 0 |
| Frames.Frame.Assign | src/feature_engineering.py:54-56 | `df[name] = col`: the frame's column map gains or replaces exactly that column |
| Frames.Frame.CleanAll | src/feature_engineering.py:148-149 | the in-place `replace` and `fillna` leave the frame equal to `CleanColumns` of its old columns |
| PyText.LowerOfLowerAscii | src/calculate_market_values.py:14 | `lower()` leaves a string with no upper-case ASCII letter unchanged, whatever the Unicode table |
| PyText.LowerAscii | src/calculate_market_values.py:14 | on ASCII text `lower()` keeps the length and lowers each character in place, whatever the Unicode table |
| PyText.LowerCaseless | src/calculate_market_values.py:14 | ASCII strings that differ only in letter case lower to the same string |
| PyText.Strip | src/calculate_market_values.py:17 | `strip()` is no longer than its input and has no white space at either end |
| PyText.StripSlice | src/calculate_market_values.py:63 | `strip()` keeps a slice `s[i..j]` of its input; what it removes is white space, and only from the two ends |
| PyText.Words | src/calculate_market_values.py:66 | `split()` yields non-empty tokens with no white space |
| PyText.SplitOn | src/calculate_market_values.py:63 | `split(",")` yields at least one piece, and no piece contains the separator |
| PyText.JoinSplitOn | src/calculate_market_values.py:63 | joining the pieces of `split(sep)` with `sep` restores the string |
| PyText.SplitOnJoin | src/calculate_market_values.py:63 | pieces free of the separator split back out of their join |
| MarketValues.AsciiOnly | src/calculate_market_values.py:15 | the ASCII filter leaves only ASCII characters |
| MarketValues.Scrub | src/calculate_market_values.py:16 | same length; a lower-case letter or white-space character stays in place, every other character becomes a space |
| MarketValues.Squeeze | src/calculate_market_values.py:17 | every white-space run becomes one space: no two spaces touch, and other characters come from the input |
| MarketValues.SqueezeWords | src/calculate_market_values.py:17 | `re.sub(r"\s+", " ", s).strip()` equals `" ".join(s.split())`: the words of `s`, in order, one space apart |
| MarketValues.NormalizeString | src/calculate_market_values.py:14-17 | the result is canonical: lower-case a-z words joined by single spaces, no space at either end |
| MarketValues.NormalizeText | src/calculate_market_values.py:11-18 | "" for a non-string; otherwise the canonical name made of the words of the lowered, decomposed, ASCII-only, scrubbed text, one space apart |
| MarketValues.NormalizeStringFixed | src/calculate_market_values.py:14-17 | a canonical name normalises to itself |
| MarketValues.NormalizeTextIdempotent | src/calculate_market_values.py:11-18 | normalising twice gives the same as normalising once |
| MarketValues.NormalizeStringWords | src/calculate_market_values.py:14-17 | the result is `" ".join(t.split())` for `t` the lowered, NFD-decomposed, ASCII-only and scrubbed input |
| MarketValues.NormalizeAsciiWords | src/calculate_market_values.py:14-17 | on ASCII input the Unicode tables play no part: the words of the lowered, scrubbed input, one space apart |
| MarketValues.NormalizeCaseless | src/calculate_market_values.py:14-17 | ASCII names that differ only in letter case normalise alike |
| MarketValues.FirstNumberRun | src/calculate_market_values.py:35-37 | no run exactly when the text has no digit or dot; otherwise a non-empty run of digits and dots |
| MarketValues.FirstRunOf | src/calculate_market_values.py:35 | a run of number characters followed by a non-number character is the first run found |
| MarketValues.ParseFloat | src/calculate_market_values.py:39-42 | `float` accepts a run exactly when it has at most one dot and at least one digit |
| MarketValues.ParseWrittenNumber | src/calculate_market_values.py:40 | `float` of whole digits, optionally followed by a dot and decimals, keeps every digit and as many places as follow the dot |
| MarketValues.ParseWrittenDecimal | src/calculate_market_values.py:40 | `float` of digits, a dot and digits is the digits with that many decimal places |
| MarketValues.IntegralPart | src/calculate_market_values.py:49 | `int(num / den)` is the integral part: `r * den <= num < (r + 1) * den` |
| MarketValues.ScaledValue | src/calculate_market_values.py:44-49 | `int(n * unit)` is the integral part of the decimal times the unit factor |
| MarketValues.ParseMarketValue | src/calculate_market_values.py:20-49 | 0 for a non-string, for a text with no digit-or-dot run, and for a first run `float` rejects; every result is a natural number |
| MarketValues.CommaToDot | src/calculate_market_values.py:25 | the decimal comma of a written amount becomes a dot and nothing else changes |
| MarketValues.RewriteNoUnit | src/calculate_market_values.py:26-33 | the unit replacements leave a bare number unchanged |
| MarketValues.RewriteThousands | src/calculate_market_values.py:26-33 | "n mil" rewrites to "nk" |
| MarketValues.ThousandsSuffixRewrites | src/calculate_market_values.py:27-32 | the first five replacements leave " mil" alone and the last turns it into "k" |
| MarketValues.RewriteMillions | src/calculate_market_values.py:26-33 | "n mill." rewrites to "n m" |
| MarketValues.MillionsSuffixKept | src/calculate_market_values.py:27-29 | the euro, "millones" and "millon" replacements leave " mill." alone |
| MarketValues.MillionsSuffixShortened | src/calculate_market_values.py:30-32 | "mill." becomes "m", and the later "mill" and " mil" replacements leave " m" alone |
| MarketValues.RewriteWrittenAmount | src/calculate_market_values.py:25-33 | the whole rewriting chain turns a written amount into its number with a dot, followed by what is left of its unit |
| MarketValues.AmountTextOf | src/calculate_market_values.py:24-33 | lowering, stripping and rewriting a written amount gives its number and unit tail |
| MarketValues.MultiplierOf | src/calculate_market_values.py:44-47 | the unit tail left by the rewriting selects the factor: an "m" gives a million, else a "k" gives a thousand, else 1 |
| MarketValues.AmountValueOf | src/calculate_market_values.py:35-49 | the first number of a rewritten amount, scaled by its unit |
| MarketValues.ParseAmountRoundTrip | src/calculate_market_values.py:20-49 | parsing "whole,frac unit" gives the integral part of (whole + frac / 10^len) times the unit's factor |
| MarketValues.JoinedValue | src/calculate_market_values.py:40 | the digits of `whole` followed by the digits `frac` read as `whole * 10^len + frac` |
| MarketValues.ParseList | src/calculate_market_values.py:52-63 | a list is returned unchanged; a tuple or any other non-string gives []; a string yields only strings; a string whose literal is neither a list nor a string (a tuple, a number) gives None, where `.split` raises |
| MarketValues.ParseListFallback | src/calculate_market_values.py:57-63 | when `literal_eval` fails or gives a string, the comma split yields only trimmed, non-empty names |
| MarketValues.SplitNamesJoin | src/calculate_market_values.py:63 | names with no comma and no outer white space, joined with ", ", split back into the same names |
| MarketValues.ParseListJoined | src/calculate_market_values.py:57-63 | a stored "a, b, c" lineup text that `literal_eval` rejects reads back as its names, in order |
| MarketValues.TokenSetScore | src/calculate_market_values.py:65-69 | in [0, 1]; 0 for a query without tokens; 1 exactly when the query has tokens and all of them are in the candidate |
| MarketValues.Ratio | src/calculate_market_values.py:69 | the share of query tokens matched is in [0, 1], and is 1 exactly when all are matched |
| MarketValues.TokenSetScoreAsymmetric | src/calculate_market_values.py:65-69 | the score is not symmetric: ("a", "a b") scores 1, but ("a b", "a") scores 0.5 |
| PlayerMatching.Roster | src/calculate_market_values.py:77-78 | the roster holds exactly the rows of the (season, team) scope, in table order |
| PlayerMatching.FirstNamed | src/calculate_market_values.py:82-84 | finds the first roster row whose normalised name equals the query; none exactly when no row has it |
| PlayerMatching.ArgMax | src/calculate_market_values.py:87 | `idxmax` returns a position holding the largest score, with no earlier position as large |
| PlayerMatching.ArgMaxIsFirstMax | src/calculate_market_values.py:87 | `idxmax` is exactly the first position of the maximum, in both directions |
| PlayerMatching.TokenScores | src/calculate_market_values.py:86 | the token score of the query against every roster name, in roster order |
| PlayerMatching.FuzzyScores | src/calculate_market_values.py:91 | the character similarity of the query to every roster name, in roster order |
| PlayerMatching.Candidate | src/calculate_market_values.py:86-93 | the scoring stage picks a roster row |
| PlayerMatching.Resolve | src/calculate_market_values.py:82-98 | the layered policy returns 0 or the value of a roster row |
| PlayerMatching.MatchPlayerValue | src/calculate_market_values.py:72-98 | `match_player_value` returns 0 or the market value of a row in the (season, team) scope |
| PlayerMatching.MatchNothing | src/calculate_market_values.py:73-80 | a name that normalises to "" or an empty scope resolves to 0 |
| PlayerMatching.MatchExact | src/calculate_market_values.py:82-84 | an exact normalised name wins before any scoring, with the first such row's value |
| PlayerMatching.MatchByTokens | src/calculate_market_values.py:86-90 | without an exact name, a best token score of at least 0.6 returns the value of the first row attaining it |
| PlayerMatching.ResolveByTokens | src/calculate_market_values.py:86-96 | the same token rule, stated on the normalised name and the roster |
| PlayerMatching.MatchBySimilarity | src/calculate_market_values.py:90-98 | with every token score below 0.6, the first row of highest similarity is chosen, and its value is returned only at a similarity of at least 0.55, else 0 |
| PlayerMatching.ResolveBySimilarity | src/calculate_market_values.py:90-98 | the same similarity rule, stated on the normalised name and the roster |
| PlayerMatching.MatchIgnoresOtherRows | src/calculate_market_values.py:77-78 | rows outside the scope are never read: adding them before or after the table changes nothing |
| PlayerMatching.RosterValue | src/calculate_market_values.py:78 | a value taken from the roster is the value of a row in scope |
| PlayerMatching.PlayerValues | src/calculate_market_values.py:106-107 | every lineup entry resolved by `match_player_value`, in lineup order |
| PlayerMatching.TeamValue | src/calculate_market_values.py:101-108 | the accumulator loop computes the lineup's value: 0 for a non-list or an empty list, else the sum of the resolved values |
| PlayerMatching.LineupValueAppend | src/calculate_market_values.py:105-107 | a lineup's value is the sum of its parts' values |
| PlayerMatching.LineupValueRepeated | src/calculate_market_values.py:106-107 | a name listed twice counts twice |
| PlayerMatching.LineupValueNonNegative | src/calculate_market_values.py:101-108 | with non-negative market values, a team's value is non-negative |
| PlayerMatching.NormColumn | src/calculate_market_values.py:151-152 | `map(normalize_text)` gives one canonical string per cell |
| PlayerMatching.MarketValueCell | src/calculate_market_values.py:153 | `to_numeric(errors="coerce").fillna(0)` keeps a number, and turns a missing cell into 0 |
| PlayerMatching.MarketColumn | src/calculate_market_values.py:153 | the coerced market-value column has one number per cell |
| PlayerMatching.LineupColumn | src/calculate_market_values.py:157-158 | `apply(parse_list)` gives one list per cell |
| PlayerMatching.PlayerTable | src/calculate_market_values.py:151-153 | the players table read row by row from its four columns |
| PlayerMatching.TeamValueColumn | src/calculate_market_values.py:161-169 | one numeric team value per feature row |
| PlayerMatching.TeamValuesOf | src/calculate_market_values.py:161-169 | the row loop behind `features.apply` computes `TeamValueColumn` |
| PlayerMatching.AddTeamValuesToFeatures | src/calculate_market_values.py:150-171 | both frames are updated in place: the players frame gains normalised team and name columns and coerced values; the feature frame gains normalised team names and parsed lineups, then the home and away team values, and nothing else changes |
| Rolling.History | src/feature_engineering.py:19-20 | the earlier values of a team's rows, at most one per earlier row |
| Rolling.HistoryLength | src/feature_engineering.py:19-20 | a team's history has one value per earlier appearance |
| Rolling.WindowMean | src/feature_engineering.py:20 | `rolling(w).mean()` on a full window is NaN exactly when some cell is NaN |
| Rolling.RollingAt | src/feature_engineering.py:18-22 | a row's rolling value is a number or NaN |
| Rolling.RollingColumn | src/feature_engineering.py:18-22 | the new column has one value per row, each the row's rolling value |
| Rolling.RollingMissingEarly | src/feature_engineering.py:20 | until its team has appeared `w` times before, a row's value is missing |
| Rolling.HistoryDependsOnTeamRows | src/feature_engineering.py:19-20 | a history depends only on the earlier rows, and among them only on the values of the team's own rows |
| Rolling.RollingUsesOnlyEarlierTeamRows | src/feature_engineering.py:14-23 | no lookahead and no other team: the row's own value, later rows and other teams' rows never change its rolling value |
| Rolling.RollingSteady | src/feature_engineering.py:20 | when a team's last `w` earlier values are all `c`, its rolling value is `c` |
| Rolling.HistoryBounded | src/feature_engineering.py:19-20 | a history keeps the column's bounds |
| Rolling.RollingBounds | src/feature_engineering.py:20 | a rolling mean lies between the column's bounds |
| Rolling.WindowMeanBounds | src/feature_engineering.py:20 | the mean of a full window lies between the bounds of its cells |
| Elo.Outcome | src/feature_engineering.py:39-44 | the scores sum to 1; the home side scores 1 exactly on strictly more goals, and the away side exactly on strictly fewer |
| Elo.ExpectedHome | src/feature_engineering.py:47 | the expected home score lies strictly between 0 and 1 |
| Elo.Step | src/feature_engineering.py:51-52 | one match keeps the set of rated teams |
| Elo.RatingsAfter | src/feature_engineering.py:34-52 | playing the matches in order keeps the set of rated teams |
| Elo.Teams | src/feature_engineering.py:29 | every home and away team is in the team set |
| Elo.InitialRatings | src/feature_engineering.py:29-30 | every team starts at 1500 |
| Elo.InitialRated | src/feature_engineering.py:29-30 | the starting ratings cover every team of every prefix of the table |
| Elo.Before | src/feature_engineering.py:34-52 | the ratings in force at a row cover exactly the teams of the table |
| Elo.BeforeNext | src/feature_engineering.py:34-52 | the ratings before row i + 1 are those before row i after its match |
| Elo.StepDeltas | src/feature_engineering.py:47-52 | the home gain and the away gain sum to 0 |
| Elo.StepZeroSum | src/feature_engineering.py:51-52 | a match between two teams keeps the sum of their two ratings |
| Elo.StepSelf | src/feature_engineering.py:51-52 | a team listed against itself keeps its rating |
| Elo.StepOthers | src/feature_engineering.py:51-52 | teams not in the match keep their ratings |
| Elo.StepWinner | src/feature_engineering.py:39-52 | with a positive k, after a home win or an away win, the winner gains and the loser loses, each strictly less than k |
| Elo.StepBounded | src/feature_engineering.py:47-52 | whatever the result, no rating moves by k or more |
| Elo.StepEvenDraw | src/feature_engineering.py:43-52 | a draw between equally rated sides changes nothing when the expectation gives an even match one half |
| Elo.IdleUnchanged | src/feature_engineering.py:34-52 | a team that plays none of the matches keeps its rating |
| Elo.FirstAppearance | src/feature_engineering.py:30-37 | a side's recorded rating is 1500 until its first match |
| Elo.StepConserves | src/feature_engineering.py:51-52 | a match leaves the sum of all ratings unchanged |
| Elo.RatingsConserved | src/feature_engineering.py:34-52 | the sum of all ratings never changes over the loop |
| Elo.AverageStaysInitial | src/feature_engineering.py:29-52 | at every row the ratings total 1500 times the number of teams |
| Elo.FixturesOf | src/feature_engineering.py:34-35 | one playable fixture per row, as `iterrows` visits them |
| Elo.RecordedColumn | src/feature_engineering.py:36-37 | row j records the home or away rating in force before its match |
| Elo.RecordedRatings | src/feature_engineering.py:36-37 | the recorded ratings are read from the ratings in force when the row is reached |
| Elo.PlayMatch | src/feature_engineering.py:39-52 | the two in-place updates compute one `Step` |
| Elo.PlayTable | src/feature_engineering.py:32-52 | the loop appends every row's pre-match ratings, in row order |
| Elo.EloColumns | src/feature_engineering.py:54-56 | adds exactly the three numeric Elo columns and keeps every other column |
| Elo.EloColumnsRecorded | src/feature_engineering.py:32-56 | the Elo columns hold the recorded home ratings, away ratings and their difference |
| Elo.EloColumnsAt | src/feature_engineering.py:36-37 | row i of `elo_home` and `elo_away` holds both sides' ratings before its match |
| Elo.EloDiffColumn | src/feature_engineering.py:56 | `elo_diff` is `elo_home - elo_away`, column for column |
| Elo.EloDiffAt | src/feature_engineering.py:56 | row i of `elo_diff` is the home rating less the away rating |
| Elo.AddEloFeatures | src/feature_engineering.py:25-58 | the frame's columns become `EloColumns` of its old columns |
| Features.RollingFeature | src/feature_engineering.py:14-23 | the frame gains or replaces exactly the new column, holding the rolling column |
| Features.FormColumns | src/feature_engineering.py:65-71 | adds exactly the six numeric form columns and keeps every other column |
| Features.AddFormFeatures | src/feature_engineering.py:61-73 | the frame's columns become `FormColumns` of its old columns |
| Features.FormUsesOnlyThePast | src/feature_engineering.py:65-70 | no leakage: a row's home goal-difference form ignores the row's own result and all later rows |
| Features.FormMissingEarly | src/feature_engineering.py:65-70 | without `w` earlier home matches, the home goal-difference form is missing |
| Features.StatTargets | src/feature_engineering.py:80-93 | every statistics average's target is a statistics target |
| Features.StatSpecsSeparate | src/feature_engineering.py:80-93 | no average writes a column another reads, and no two write the same column |
| Features.StatColumns | src/feature_engineering.py:95-97 | the loop keeps the frame rectangular and writes no column outside the statistics targets |
| Features.StatProduced | src/feature_engineering.py:95-97 | each average is written exactly when its source column exists, and then holds that column's rolling average; otherwise its column is as it was |
| Features.StatOwn | src/feature_engineering.py:95-97 | iteration j writes its target from the original source columns, or writes nothing |
| Features.StatUntouched | src/feature_engineering.py:95-97 | iterations that do not write a column leave it alone |
| Features.StatStep | src/feature_engineering.py:95-97 | one iteration changes no column but its own target |
| Features.AddStatFeatures | src/feature_engineering.py:76-99 | the frame's columns become `StatColumns` of its old columns after all twelve iterations |
| Features.Attack | src/feature_engineering.py:106-111 | NaN in gives NaN out; with non-negative shots the attack strength is at least the goals average |
| Features.Defense | src/feature_engineering.py:112-117 | NaN in gives NaN out; with non-negative averages the defence strength is in (0, 1000] |
| Features.Discipline | src/feature_engineering.py:118-123 | NaN in gives NaN out; with non-negative averages the discipline index is at most 1 |
| Features.Combine | src/feature_engineering.py:106-123 | an index column applies its formula row by row |
| Features.IndexColumns | src/feature_engineering.py:106-123 | the index stage keeps the frame rectangular |
| Features.IndexFrame | src/feature_engineering.py:106-123 | the indices add exactly their six numeric columns and keep every other column |
| Features.AddIndexFeatures | src/feature_engineering.py:102-125 | the frame's columns become `IndexColumns` of its old columns |
| Features.Max3 | src/feature_engineering.py:146 | the NaN-skipping row maximum is one of the cells, no smaller than any non-NaN cell, NaN only when all are |
| Features.Min3 | src/feature_engineering.py:146 | the NaN-skipping row minimum is one of the cells, no larger than any non-NaN cell, NaN only when all are |
| Features.Normalised | src/feature_engineering.py:138-143 | the three normalised probabilities are float cells |
| Features.Market | src/feature_engineering.py:138-146 | all five market cells are float cells |
| Features.MarketProbabilities | src/feature_engineering.py:138-143 | with three positive odds the probabilities are each in (0, 1), sum to 1, and keep the ratio of the inverse odds |
| Features.MarginNonNegative | src/feature_engineering.py:146 | the favourite margin is never negative |
| Features.MarketRows | src/feature_engineering.py:138-146 | one market row per frame row, computed from that row's odds |
| Features.MarketColumns | src/feature_engineering.py:133-149 | unchanged without all three odds columns; otherwise no cell of the frame is infinite or NaN |
| Features.MarketFrame | src/feature_engineering.py:138-149 | with the odds, exactly the five market columns are added and every other cell is kept with NaN and infinities filled by 0 |
| Features.MarketColumnsSumToOne | src/feature_engineering.py:138-143 | on a row with three positive odds the three probability columns sum to 1 |
| Features.AddMarketFeatures | src/feature_engineering.py:128-151 | the frame's columns become `MarketColumns` of its old columns |
| Sorting.StrLeTotal | src/feature_engineering.py:160 | any two date strings are ordered one way or the other |
| Sorting.StrLeTransitive | src/feature_engineering.py:160 | string order is transitive |
| Sorting.DateLeTotal | src/feature_engineering.py:160 | the sort order on date cells, missing last, is total |
| Sorting.DateLeTransitive | src/feature_engineering.py:160 | the sort order on date cells is transitive |
| Sorting.Insert | src/feature_engineering.py:160 | insertion adds exactly the one row to the order |
| Sorting.InsertSorted | src/feature_engineering.py:160 | insertion keeps the order sorted by date |
| Sorting.SortRows | src/feature_engineering.py:160 | the sort is a permutation of the rows, sorted by date |
| Sorting.SortStep | src/feature_engineering.py:160 | inserting the next row into a sorted order of the earlier rows sorts one row more |
| Sorting.DateOrderExists | src/feature_engineering.py:160 | every date column has an order `sort_values` may produce |
| Sorting.DateOrderIsPermutation | src/feature_engineering.py:160 | a date order has every row exactly once |
| Sorting.DatesInOrder | src/feature_engineering.py:160 | the dates taken in a date order ascend |
| Sorting.Reorder | src/feature_engineering.py:160 | reordering keeps the columns, and row i of each is row `order[i]` of the input |
| Pipeline.ReorderKeepsKinds | src/feature_engineering.py:160 | sorting keeps what kind of cells each column holds |
| Pipeline.SortedReady | src/feature_engineering.py:160-161 | the sorted frame has every match column in the state the stages need |
| Pipeline.Sorted | src/feature_engineering.py:160 | `sort_values("Date")` keeps the columns, and row i of each column is the input's row `order[i]` |
| Pipeline.RatedAndFormed | src/feature_engineering.py:161-162 | Elo then form change no column but their own targets |
| Pipeline.StatsReadyForIndex | src/feature_engineering.py:162-164 | after form and statistics, every column the indices read is there and numeric |
| Pipeline.FormAveragesKept | src/feature_engineering.py:163 | the statistics loop does not touch the goal averages |
| Pipeline.StatAveragesReady | src/feature_engineering.py:163-164 | the six statistics averages the indices read are produced, and numeric |
| Pipeline.StatsAndIndices | src/feature_engineering.py:163-164 | statistics then indices change no column but their own targets |
| Pipeline.Indexed | src/feature_engineering.py:160-164 | the match columns survive the first four stages |
| Pipeline.Featured | src/feature_engineering.py:161-166 | the feature stages keep the frame rectangular |
| Pipeline.Generated | src/feature_engineering.py:155-168 | the result of `generate_features` is rectangular |
| Pipeline.SortedFixtures | src/feature_engineering.py:160-161 | the Elo loop of the sorted frame visits the input's rows in date order |
| Pipeline.IndexedKeeps | src/feature_engineering.py:161-164 | a column no feature stage writes passes through untouched |
| Pipeline.GeneratedRowsFollowOrder | src/feature_engineering.py:155-168 | row i of every match column is the input's row `order[i]`, cleaned when the three odds columns are there |
| Pipeline.GeneratedHasMatchColumn | src/feature_engineering.py:155-168 | every match column of the input is in the result |
| Pipeline.OddsKept | src/feature_engineering.py:165 | the odds columns reach the market stage exactly when the input has them |
| Pipeline.GeneratedDatesAscending | src/feature_engineering.py:160 | without the odds, the result's dates ascend |
| Pipeline.EloNamesKept | src/feature_engineering.py:54-56 | no later stage writes an Elo column |
| Pipeline.GeneratedEloHome | src/feature_engineering.py:160-161 | `elo_home` of the result is each row's home rating before its match, rows in date order |
| Pipeline.GeneratedEloAway | src/feature_engineering.py:160-161 | `elo_away` of the result is each row's away rating before its match, rows in date order |
| Pipeline.GeneratedEloDiff | src/feature_engineering.py:160-166 | `elo_diff` of the result is `elo_home - elo_away` on every row |
| Pipeline.EloSurvives | src/feature_engineering.py:161-166 | an Elo cell reaches the result as the Elo stage wrote it |
| Pipeline.IndexedElo | src/feature_engineering.py:162-164 | the form, statistics and index stages leave the Elo columns alone |
| Pipeline.GeneratedFromIndexed | src/feature_engineering.py:165-166 | the market stage keeps a column it does not write, cleaned when the odds are there |
| Pipeline.GeneratedClean | src/feature_engineering.py:165-166 | with the odds, no cell of the result is NaN or infinite |
| Pipeline.AddFeatures | src/feature_engineering.py:161-166 | the stages, one after the other on the sorted copy, compute `Featured` |
| Pipeline.GenerateFeatures | src/feature_engineering.py:155-168 | a fresh frame with as many rows, whose rows follow a date order of the input, equal to `Generated` |
| Lineups.DropDuplicateHrefs | src/players_info_preparation.py:30 | the de-duplication loop keeps each row unless an earlier row has its href |
| Lineups.FirstOfEachHrefUnique | src/players_info_preparation.py:30 | after de-duplication hrefs are unique, and no href is lost |
| Lineups.FirstOfEachHrefFirst | src/players_info_preparation.py:30 | every kept row is the first occurrence of its href |
| Lineups.Lookup | src/players_info_preparation.py:98-100 | no name exactly when no row's href equals the entry |
| Lineups.LookupFirst | src/players_info_preparation.py:98-100 | the first row whose href equals the entry gives the name |
| Lineups.LookupAfterDrop | src/players_info_preparation.py:30 | de-duplication does not change the name an entry resolves to |
| Lineups.LineupNamesAppend | src/players_info_preparation.py:97-101 | the names of two runs of entries, one after the other, are the names of their concatenation |
| Lineups.LineupNamesOne | src/players_info_preparation.py:98-101 | one entry gives its name when some row has its href, and nothing otherwise |
| Lineups.LineupNamesLength | src/players_info_preparation.py:96-101 | unknown entries are dropped, so a list is never longer than its lineup; with every entry known, it holds each entry's name in lineup order |
| Lineups.AllLineupNames | src/players_info_preparation.py:93-103 | one name list per lineup, in order, exactly when every lineup is iterable |
| Lineups.GetNamesLineups | src/players_info_preparation.py:93-103 | the nested loops compute `AllLineupNames` |
| Lineups.LeadingDicts | src/players_info_preparation.py:66-73 | counts the elements from the front that are dicts, up to the first that is not |
| Lineups.CellRecords | src/players_info_preparation.py:64-75 | a cell that is not text, or does not parse, gives no record |
| Lineups.RowOfMatches | src/players_info_preparation.py:66-73 | a list of match dicts gives one record per match, in order |
| Lineups.RecordKeys | src/players_info_preparation.py:67-73 | a key the match lacks is None in its record; a key it has is read from its first entry |
| Lineups.RowBreaksOff | src/players_info_preparation.py:66-75 | a list that breaks off at an element that is not a dict keeps the records before it |
| Lineups.AppendMatches | src/players_info_preparation.py:66-73 | the inner loop appends the row's records to those already gathered |
| Lineups.FlattenedSnoc | src/players_info_preparation.py:63-75 | one more row appends its records |
| Lineups.FlattenedAppend | src/players_info_preparation.py:63-75 | flattening two runs of rows one after the other flattens their concatenation |
| Lineups.GetInfoFromMatches | src/players_info_preparation.py:61-78 | the loop yields the records of every row in order, and none without a "matches" column |
| Lineups.Kept | src/players_info_preparation.py:87 | the filter keeps exactly the three named columns that exist, unchanged |
| Lineups.Concatenated | src/players_info_preparation.py:80-91 | a result exactly when both lineup columns exist and every lineup is iterable |
| Lineups.ConcatDfs | src/players_info_preparation.py:80-91 | fails exactly when `Concatenated` does; otherwise a fresh frame with as many rows, holding `Concatenated` |
| Lineups.ConcatenatedRows | src/players_info_preparation.py:80-91 | one row per match: the kept columns unchanged, and on row i the names of row i's home and away lineups |
| Lineups.ConcatenatedEmpty | src/players_info_preparation.py:82 | a frame with no columns has no lineup column, so the call fails |

## Left out

- File and network I/O:
  - `read_season_players` reading JSON files, `get_matches`, and the CSV read of `get_info_from_matches`;
  - `load_player_values`, `load_matches`, `write_csv`, `join_with_matches`, `transform_data`, and the scripts' main blocks.
  - The model starts from the frames these would produce.
- The scraper, the plotting report, the interactive script and the data-preparation module have no core logic.
- `difflib.SequenceMatcher.ratio` is a parameter into [0, 1]. Its algorithm is library code.
- `unicodedata.normalize("NFD")` and `str.lower` on non-ASCII code points are parameter tables. ASCII case is modelled exactly.
- `ast.literal_eval` is a parameter that may fail (`None`). Its result is a cell value, so set, bytes and complex literals are not representable; the source treats them like a tuple or a number, and `.split` raises. `str` of a non-string value and the numeric reading of text by `pd.to_numeric` are parameters too.
- The Elo expectation `1 / (1 + 10 ** (d / 400))` is a parameter into (0, 1). Floating exponentiation is not modelled.
- Floating-point rounding: all arithmetic is on `real`.
  - `parse_market_values` is computed on the exact decimal, so the model does not reproduce results where `float(run) * multiplier` rounds below an integer.
  - NaN and the infinities are cell kinds. IEEE signed zeros and NaN payloads are not modelled.
- A text cell that `float` would read as an infinity or NaN ("inf", "nan") is a string to the model.
- Column order and the row index are not modelled; a frame is a map from names to equal-length columns, rows by position.
- Sorting.SortRows: `sort_values` uses an unstable sort. The model proves what every result of it satisfies (`IsDateOrder`), and `GenerateFeatures` returns one such order; the tie order among equal dates is not pinned down.
- Pipeline.GenerateFeatures: dates are compared as the ISO strings a CSV round trip leaves, missing last. Parsed datetimes are not modelled.
- Pipeline.GenerateFeatures: requires the columns `HST`, `AST`, `HY`, `AY`, `HR` and `AR`, because `add_index_features` reads their averages unguarded. Without them the source raises `KeyError`.
- Pipeline.GenerateFeatures: requires the statistics and goal columns to hold finite numbers or NaN (not text or infinities).
- Pipeline.GenerateFeatures: requires the odds columns `B365H`, `B365D` and `B365A`, when present, to hold numbers. A text cell makes `1 / df[c]` raise `TypeError` at src/feature_engineering.py:139.
- Features.AddMarketFeatures: requires the odds columns to hold float cells. A text cell makes `1 / df[c]` raise `TypeError` at src/feature_engineering.py:139.
- PyText.Lower: lowers one code point at a time through the table and does not model the context-dependent final sigma of `str.lower` ("AΣ" gives "aς"). `normalize_text` keeps only ASCII after lowering, so its result is unaffected.
- Features.RollingFeature: requires the value column to hold finite numbers or NaN, because the rolling mean of an infinity is not modelled.
- Elo.AddEloFeatures: requires every goal cell to be a float (a number, an infinity or NaN). A NaN team is one rating key like any other; in the source, a dict lookup under NaN depends on object identity.
- PlayerMatching.AddTeamValuesToFeatures: requires every lineup cell to parse. When `parse_list` raises, the source aborts the whole call; the model has no such run.
- Lineups.Lookup: a lineup entry that is itself a list or dict is compared whole with `==`, while pandas would try to broadcast it.
- Lineups.RecordOf: a dict is a list of entries with distinct keys; `Get` reads the first. Only string keys are looked up.
- Lineups.DropDuplicateHrefs: player records that carry no `href` key at all give a frame with no `href` column, and `drop_duplicates(subset='href')` then raises `KeyError`. The model's players are records that always carry an href.
- Lineups.GetNamesLineups: when no season file has players, `read_season_players` returns an empty frame (src/players_info_preparation.py:26-27) with no `href` column, and `players['href']` raises `KeyError` at the first lineup entry. The model's empty player list resolves every entry to nothing and gives empty name lists.
- MarketValues.ParseMarketValue: digits are the ASCII `0`-`9`. Python's `\d` and `float` also accept the other Unicode decimal digits, so a full-width "３m" is worth 3000000 in the source and 0 in the model. A run so long that `float` gives an infinity makes `int(n)` raise `OverflowError` (src/calculate_market_values.py:49); the model returns the exact integral part instead.
- MarketValues.FirstNumberRun: `[\d.]+` is read with ASCII digits only, not every Unicode decimal digit.
- MarketValues.ParseFloat: reads ASCII digits only, and the decimal exactly; `float`'s other Unicode digits and its rounding to the nearest double are not modelled.
- The intermediate column assignments of `add_market_features` are modelled as one computed frame.
