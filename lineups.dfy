/**
 * players_info_preparation.py: the season players kept once per href, the stored
 * match lists flattened into one record per match, and every lineup's player hrefs
 * resolved to player names.  Reading and writing files is not modelled: the frames
 * arrive as values, and `ast.literal_eval` is the parameter `literalEval` (None when
 * it raises).
 */
module Lineups {
  import opened Common
  import opened Values
  import opened Frames

  /** A row of the season players frame: the two columns the resolution reads. */
  datatype Player = Player(href: Value, name: Value)

  // ----------------------------------------------------------- read_season_players

  /** The hrefs of the rows. */
  function Hrefs(players: seq<Player>): (hrefs: set<Value>)
    ensures forall j :: 0 <= j < |players| ==> players[j].href in hrefs
    ensures forall h :: h in hrefs ==> exists j :: 0 <= j < |players| && players[j].href == h
  {
    set j | 0 <= j < |players| :: players[j].href
  }

  lemma HrefsSnoc(players: seq<Player>, p: Player)
    ensures Hrefs(players + [p]) == Hrefs(players) + {p.href}
  {
    var both := players + [p];
    forall h | h in Hrefs(both) ensures h in Hrefs(players) + {p.href} {
      var j :| 0 <= j < |both| && both[j].href == h;
      if j < |players| {
        assert both[j] == players[j];
      }
    }
    forall j | 0 <= j < |players| ensures players[j].href in Hrefs(both) {
      assert both[j] == players[j];
    }
    assert both[|players|] == p;
  }

  /**
   * `drop_duplicates(subset='href')`: the rows in order, each kept unless an earlier
   * row has the same href.  Missing hrefs are duplicates of each other, as in pandas.
   */
  function FirstOfEachHref(players: seq<Player>): seq<Player>
  {
    if players == [] then []
    else
      var init := players[..|players| - 1];
      var p := players[|players| - 1];
      if p.href in Hrefs(init) then FirstOfEachHref(init) else FirstOfEachHref(init) + [p]
  }

  /** The de-duplication loop, with the hrefs seen so far in a set. */
  method DropDuplicateHrefs(players: seq<Player>) returns (kept: seq<Player>)
    ensures kept == FirstOfEachHref(players)
  {
    kept := [];
    var seen: set<Value> := {};
    for i := 0 to |players|
      invariant kept == FirstOfEachHref(players[..i])
      invariant seen == Hrefs(players[..i])
    {
      var p := players[i];
      assert players[..i + 1] == players[..i] + [p];
      HrefsSnoc(players[..i], p);
      if p.href !in seen {
        kept := kept + [p];
        seen := seen + {p.href};
      }
    }
    assert players[..|players|] == players;
  }

  /** No two kept rows share an href, and the kept rows have exactly the hrefs of the input. */
  lemma {:induction false} FirstOfEachHrefUnique(players: seq<Player>)
    ensures var kept := FirstOfEachHref(players);
            && Hrefs(kept) == Hrefs(players)
            && forall i, j :: 0 <= i < j < |kept| ==> kept[i].href != kept[j].href
    decreases |players|
  {
    if players != [] {
      var init, p := players[..|players| - 1], players[|players| - 1];
      assert players == init + [p];
      FirstOfEachHrefUnique(init);
      HrefsSnoc(init, p);
      var prev := FirstOfEachHref(init);
      if p.href !in Hrefs(init) {
        HrefsSnoc(prev, p);
        var kept := prev + [p];
        forall i, j | 0 <= i < j < |kept| ensures kept[i].href != kept[j].href {
          if j == |prev| {
            assert kept[i] == prev[i];
            assert prev[i].href in Hrefs(prev);
          }
        }
      }
    }
  }

  /** Every kept row is a row of the input, and no earlier input row has its href. */
  lemma {:induction false} FirstOfEachHrefFirst(players: seq<Player>, k: nat)
    requires k < |FirstOfEachHref(players)|
    ensures var row := FirstOfEachHref(players)[k];
            exists i :: 0 <= i < |players| && players[i] == row && row.href !in Hrefs(players[..i])
    decreases |players|
  {
    var init, p := players[..|players| - 1], players[|players| - 1];
    var prev := FirstOfEachHref(init);
    var row := FirstOfEachHref(players)[k];
    if k < |prev| {
      assert row == prev[k];
      FirstOfEachHrefFirst(init, k);
      var i :| 0 <= i < |init| && init[i] == row && row.href !in Hrefs(init[..i]);
      assert players[..i] == init[..i];
      assert players[i] == row;
    } else {
      assert row == p && p.href !in Hrefs(init);
      assert players[..|players| - 1] == init;
    }
  }

  // ------------------------------------------------------------- get_names_lineups

  /**
   * `players[players['href'] == entry].iloc[0]['name']`: the name on the first row
   * whose href equals the entry, or None when the selection is empty.  A missing
   * href or entry equals nothing.
   */
  function Lookup(players: seq<Player>, entry: Value): (r: Option<Value>)
    ensures r.None? <==> forall j :: 0 <= j < |players| ==> !PyEq(players[j].href, entry)
  {
    if players == [] then None
    else
      var init, p := players[..|players| - 1], players[|players| - 1];
      var prev := Lookup(init, entry);
      assert forall j :: 0 <= j < |init| ==> init[j] == players[j];
      if prev.Some? then prev
      else if PyEq(p.href, entry) then Some(p.name)
      else None
  }

  /** The first row whose href equals the entry supplies the name. */
  lemma {:induction false} LookupFirst(players: seq<Player>, entry: Value, k: nat)
    requires k < |players| && PyEq(players[k].href, entry)
    requires forall j :: 0 <= j < k ==> !PyEq(players[j].href, entry)
    ensures Lookup(players, entry) == Some(players[k].name)
    decreases |players|
  {
    var init := players[..|players| - 1];
    if k < |init| {
      LookupFirst(init, entry, k);
    } else {
      assert forall j :: 0 <= j < |init| ==> !PyEq(init[j].href, entry);
    }
  }

  /** Dropping duplicate hrefs does not change the name an entry resolves to. */
  lemma {:induction false} LookupAfterDrop(players: seq<Player>, entry: Value)
    ensures Lookup(FirstOfEachHref(players), entry) == Lookup(players, entry)
    decreases |players|
  {
    if players != [] {
      var init, p := players[..|players| - 1], players[|players| - 1];
      var prev := FirstOfEachHref(init);
      LookupAfterDrop(init, entry);
      if p.href in Hrefs(init) {
        var j :| 0 <= j < |init| && init[j].href == p.href;
        if PyEq(p.href, entry) {
          assert PyEq(init[j].href, entry);
        }
      } else {
        var kept := prev + [p];
        assert kept[..|kept| - 1] == prev;
      }
    }
  }

  /** The names of the resolvable entries of one lineup, in lineup order. */
  function LineupNames(entries: seq<Value>, players: seq<Player>): seq<Value>
  {
    if entries == [] then []
    else
      var prev := LineupNames(entries[..|entries| - 1], players);
      match Lookup(players, entries[|entries| - 1])
      case Some(name) => prev + [name]
      case None => prev
  }

  /** Resolving two runs of entries one after the other resolves their concatenation. */
  lemma {:induction false} LineupNamesAppend(a: seq<Value>, b: seq<Value>, players: seq<Player>)
    ensures LineupNames(a + b, players) == LineupNames(a, players) + LineupNames(b, players)
    decreases |b|
  {
    if b == [] {
      assert a + b == a;
    } else {
      var b' := b[..|b| - 1];
      assert (a + b)[..|a + b| - 1] == a + b';
      assert (a + b)[|a + b| - 1] == b[|b| - 1];
      LineupNamesAppend(a, b', players);
    }
  }

  /** One entry gives its name when some row has its href, and nothing otherwise. */
  lemma LineupNamesOne(entry: Value, players: seq<Player>)
    ensures LineupNames([entry], players) == match Lookup(players, entry) case Some(name) => [name] case None => []
  {
    assert [entry][..0] == [];
  }

  /** Unknown entries are dropped, so a lineup never gains names; with every entry known, none is lost. */
  lemma {:induction false} LineupNamesLength(entries: seq<Value>, players: seq<Player>)
    ensures |LineupNames(entries, players)| <= |entries|
    ensures (forall k :: 0 <= k < |entries| ==> Lookup(players, entries[k]).Some?) ==>
              LineupNames(entries, players) == seq(|entries|, k requires 0 <= k < |entries| => Lookup(players, entries[k]).value)
    decreases |entries|
  {
    if entries != [] {
      var init := entries[..|entries| - 1];
      LineupNamesLength(init, players);
      if forall k :: 0 <= k < |entries| ==> Lookup(players, entries[k]).Some? {
        assert forall k :: 0 <= k < |init| ==> init[k] == entries[k];
      }
    }
  }

  /** The name lists of all lineups, or None when some lineup cannot be iterated (a TypeError). */
  function AllLineupNames(lineups: seq<Value>, players: seq<Player>): (r: Option<seq<Value>>)
    ensures r.Some? <==> forall i :: 0 <= i < |lineups| ==> Iterate(lineups[i]).Some?
    ensures r.Some? ==> |r.value| == |lineups|
    ensures r.Some? ==> forall i :: 0 <= i < |lineups| ==> r.value[i] == List(LineupNames(Iterate(lineups[i]).value, players))
  {
    if lineups == [] then Some([])
    else
      var init := lineups[..|lineups| - 1];
      assert forall i :: 0 <= i < |init| ==> init[i] == lineups[i];
      match AllLineupNames(init, players)
      case None => None
      case Some(prev) =>
        match Iterate(lineups[|lineups| - 1])
        case None => None
        case Some(entries) => Some(prev + [List(LineupNames(entries, players))])
  }

  /** `get_names_lineups`: one name list per lineup, built entry by entry. */
  method GetNamesLineups(lineups: seq<Value>, players: seq<Player>) returns (r: Option<seq<Value>>)
    ensures r == AllLineupNames(lineups, players)
  {
    var all: seq<Value> := [];
    for i := 0 to |lineups|
      invariant AllLineupNames(lineups[..i], players) == Some(all)
    {
      assert lineups[..i + 1][..i] == lineups[..i];
      match Iterate(lineups[i]) {
        case None =>
          assert !Iterate(lineups[i]).Some?;
          return None;
        case Some(entries) =>
          var names: seq<Value> := [];
          for k := 0 to |entries|
            invariant names == LineupNames(entries[..k], players)
          {
            assert entries[..k + 1][..k] == entries[..k];
            match Lookup(players, entries[k]) {
              case Some(name) => names := names + [name];
              case None =>
            }
          }
          assert entries[..|entries|] == entries;
          all := all + [List(names)];
      }
    }
    assert lineups[..|lineups|] == lineups;
    return Some(all);
  }

  // --------------------------------------------------------- get_info_from_matches

  /** One flattened match: the five keys read with `match.get`, None where a key is absent. */
  datatype MatchRecord = MatchRecord(dateTime: Value, homeTeam: Value, awayTeam: Value,
                                     homeLineup: Value, awayLineup: Value)

  function RecordOf(entries: seq<(Value, Value)>): MatchRecord
  {
    MatchRecord(Get(entries, Str("date_time")), Get(entries, Str("home_team")), Get(entries, Str("away_team")),
                Get(entries, Str("home_lineup")), Get(entries, Str("away_lineup")))
  }

  /** How many elements from the front are dicts. */
  function LeadingDicts(xs: seq<Value>): (r: nat)
    ensures r <= |xs| && (forall j :: 0 <= j < r ==> xs[j].Dict?) && (r == |xs| || !xs[r].Dict?)
  {
    if xs == [] || !xs[0].Dict? then 0 else 1 + LeadingDicts(xs[1..])
  }

  /**
   * The records one parsed row appends: one per element up to the first element that
   * is not a dict, whose `.get` raises and ends the row, keeping what was appended.
   */
  function RowRecords(parsed: Value): (records: seq<MatchRecord>)
  {
    match Iterate(parsed)
    case None => []
    case Some(xs) => seq(LeadingDicts(xs), j requires 0 <= j < LeadingDicts(xs) => RecordOf(xs[j].entries))
  }

  /** The records of one `matches` cell: nothing when it is not text or does not parse. */
  function CellRecords(cell: Value, literalEval: string -> Option<Value>): (records: seq<MatchRecord>)
    ensures !cell.Str? ==> records == []
    ensures cell.Str? && literalEval(cell.s).None? ==> records == []
  {
    if !cell.Str? then []
    else match literalEval(cell.s)
      case None => []
      case Some(parsed) => RowRecords(parsed)
  }

  /** The record lists joined one after the other. */
  function Concat(rows: seq<seq<MatchRecord>>): seq<MatchRecord>
  {
    if rows == [] then [] else Concat(rows[..|rows| - 1]) + rows[|rows| - 1]
  }

  /** Joining two runs of lists one after the other joins their concatenation. */
  lemma {:induction false} ConcatAppend(a: seq<seq<MatchRecord>>, b: seq<seq<MatchRecord>>)
    ensures Concat(a + b) == Concat(a) + Concat(b)
    decreases |b|
  {
    if b == [] {
      assert a + b == a;
    } else {
      var b' := b[..|b| - 1];
      assert (a + b)[..|a + b| - 1] == a + b';
      ConcatAppend(a, b');
    }
  }

  /** The records of each cell, row by row. */
  function RowsRecords(cells: seq<Value>, literalEval: string -> Option<Value>): (rows: seq<seq<MatchRecord>>)
    ensures |rows| == |cells| && forall i :: 0 <= i < |cells| ==> rows[i] == CellRecords(cells[i], literalEval)
  {
    seq(|cells|, i requires 0 <= i < |cells| => CellRecords(cells[i], literalEval))
  }

  /** The records of every cell of the column, row after row. */
  function Flattened(cells: seq<Value>, literalEval: string -> Option<Value>): seq<MatchRecord>
  {
    Concat(RowsRecords(cells, literalEval))
  }

  /** One more row appends its records. */
  lemma FlattenedSnoc(cells: seq<Value>, cell: Value, literalEval: string -> Option<Value>)
    ensures Flattened(cells + [cell], literalEval) == Flattened(cells, literalEval) + CellRecords(cell, literalEval)
  {
    var rows := RowsRecords(cells + [cell], literalEval);
    assert rows[..|cells|] == RowsRecords(cells, literalEval);
  }

  /** `get_info_from_matches` without the file read: the flattening loop over the rows of `df`. */
  method GetInfoFromMatches(df: Frame, literalEval: string -> Option<Value>) returns (records: seq<MatchRecord>)
    requires df.Valid()
    ensures records == if "matches" in df.columns then Flattened(df.columns["matches"], literalEval) else []
  {
    var cols, n := df.columns, df.rows;
    records := [];
    for i := 0 to n
      invariant records == if "matches" in cols then Flattened(cols["matches"][..i], literalEval) else []
    {
      if "matches" in cols {
        var cells := cols["matches"];
        assert cells[..i + 1] == cells[..i] + [cells[i]];
        FlattenedSnoc(cells[..i], cells[i], literalEval);
        var cell := cells[i];
        if cell.Str? {
          match literalEval(cell.s) {
            case None =>
            case Some(parsed) =>
              match Iterate(parsed) {
                case None =>
                case Some(xs) =>
                  records := AppendMatches(records, xs);
              }
          }
        }
      }
    }
    if "matches" in cols {
      assert cols["matches"][..n] == cols["matches"];
    }
  }

  /** The inner loop: one record per element, stopping at the first element that is not a dict. */
  method AppendMatches(before: seq<MatchRecord>, xs: seq<Value>) returns (records: seq<MatchRecord>)
    ensures records == before + RowRecords(List(xs))
  {
    records := before;
    var k := 0;
    while k < |xs| && xs[k].Dict?
      invariant k <= |xs| && forall j :: 0 <= j < k ==> xs[j].Dict?
      invariant records == before + seq(k, j requires 0 <= j < k => RecordOf(xs[j].entries))
    {
      records := records + [RecordOf(xs[k].entries)];
      k := k + 1;
    }
    assert k == LeadingDicts(xs);
  }

  /** Flattening two runs of rows one after the other flattens their concatenation. */
  lemma FlattenedAppend(a: seq<Value>, b: seq<Value>, literalEval: string -> Option<Value>)
    ensures Flattened(a + b, literalEval) == Flattened(a, literalEval) + Flattened(b, literalEval)
  {
    var ra, rb, rab := RowsRecords(a, literalEval), RowsRecords(b, literalEval), RowsRecords(a + b, literalEval);
    forall i | 0 <= i < |rab| ensures rab[i] == (ra + rb)[i] {
      if i < |a| {
        assert (a + b)[i] == a[i];
      } else {
        assert (a + b)[i] == b[i - |a|];
      }
    }
    assert rab == ra + rb;
    ConcatAppend(ra, rb);
  }

  /** A list of match dicts gives one record per match, in order, with absent keys read as None. */
  lemma RowOfMatches(xs: seq<Value>)
    requires forall j :: 0 <= j < |xs| ==> xs[j].Dict?
    ensures var records := RowRecords(List(xs));
            && |records| == |xs|
            && forall j :: 0 <= j < |xs| ==> records[j] == RecordOf(xs[j].entries)
  {
  }

  /** A key the match dict lacks is None in its record; a key it has is read from its first entry. */
  lemma RecordKeys(entries: seq<(Value, Value)>)
    ensures (forall i :: 0 <= i < |entries| ==> entries[i].0 != Str("home_lineup")) ==> RecordOf(entries).homeLineup == Missing
    ensures (forall i :: 0 <= i < |entries| ==> entries[i].0 != Str("away_lineup")) ==> RecordOf(entries).awayLineup == Missing
    ensures entries != [] && entries[0].0 == Str("date_time") ==> RecordOf(entries).dateTime == entries[0].1
  {
  }

  /** A row whose list breaks off at an element that is not a dict keeps the records before it. */
  lemma RowBreaksOff(xs: seq<Value>, k: nat)
    requires k < |xs| && !xs[k].Dict? && forall j :: 0 <= j < k ==> xs[j].Dict?
    ensures RowRecords(List(xs)) == RowRecords(List(xs[..k]))
  {
    var short := xs[..k];
    assert LeadingDicts(short) == k;
  }

  // -------------------------------------------------------------------- concat_dfs

  /** The columns `filter(['date_time', 'home_team', 'away_team'])` keeps. */
  function Kept(cols: Columns): (r: Columns)
    ensures r.Keys == cols.Keys * {"date_time", "home_team", "away_team"}
    ensures forall c :: c in r ==> r[c] == cols[c]
  {
    map c | c in cols && c in {"date_time", "home_team", "away_team"} :: cols[c]
  }

  /**
   * What `concat_dfs` returns, or None when it raises: a lineup column missing (a
   * KeyError; a frame built from no records has no columns at all) or a lineup that
   * cannot be iterated.
   */
  function Concatenated(players: seq<Player>, cols: Columns, n: nat): (r: Option<Columns>)
    requires Rectangular(cols, n)
    ensures r.Some? <==>
              && "home_lineup" in cols && AllLineupNames(cols["home_lineup"], players).Some?
              && "away_lineup" in cols && AllLineupNames(cols["away_lineup"], players).Some?
  {
    if "home_lineup" !in cols then None
    else match AllLineupNames(cols["home_lineup"], players)
      case None => None
      case Some(home) =>
        if "away_lineup" !in cols then None
        else match AllLineupNames(cols["away_lineup"], players)
          case None => None
          case Some(away) => Some(Kept(cols)["home_lineup_names" := home]["away_lineup_names" := away])
  }

  /** `concat_dfs`: resolve both lineup columns, keep three columns, add the two name columns. */
  method ConcatDfs(players: seq<Player>, matches: Frame) returns (out: Option<Frame>)
    requires matches.Valid()
    ensures out.Some? <==> Concatenated(players, matches.columns, matches.rows).Some?
    ensures out.Some? ==> fresh(out.value) && out.value.Valid() && out.value.rows == matches.rows
    ensures out.Some? ==> out.value.columns == Concatenated(players, matches.columns, matches.rows).value
  {
    if "home_lineup" !in matches.columns {
      return None;
    }
    var home := GetNamesLineups(matches.columns["home_lineup"], players);
    if home.None? {
      return None;
    }
    if "away_lineup" !in matches.columns {
      return None;
    }
    var away := GetNamesLineups(matches.columns["away_lineup"], players);
    if away.None? {
      return None;
    }
    var kept := new Frame(Kept(matches.columns), matches.rows);
    kept.Assign("home_lineup_names", home.value);
    kept.Assign("away_lineup_names", away.value);
    return Some(kept);
  }

  /**
   * The result has one row per match: the kept columns unchanged, and on row `i` the
   * names of row `i`'s home and away lineups.
   */
  lemma ConcatenatedRows(players: seq<Player>, cols: Columns, n: nat, i: nat)
    requires Rectangular(cols, n) && Concatenated(players, cols, n).Some? && i < n
    ensures var r := Concatenated(players, cols, n).value;
            && Rectangular(r, n)
            && r.Keys == cols.Keys * {"date_time", "home_team", "away_team"} + {"home_lineup_names", "away_lineup_names"}
            && (forall c :: c in {"date_time", "home_team", "away_team"} && c in cols ==> r[c] == cols[c])
            && r["home_lineup_names"][i] == List(LineupNames(Iterate(cols["home_lineup"][i]).value, players))
            && r["away_lineup_names"][i] == List(LineupNames(Iterate(cols["away_lineup"][i]).value, players))
  {
  }

  /** A frame built from no records has no lineup columns, so `concat_dfs` raises. */
  lemma ConcatenatedEmpty(players: seq<Player>)
    ensures Concatenated(players, map[], 0).None?
  {
  }
}
