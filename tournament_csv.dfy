/**
  * `build_tournament_csv.py`: per roster team, the best-known team name and the G, W, L,
  * RS and RA totals folded from the game rows scraped for that team, one output row per
  * roster entry.  The database is modelled by two lookups: the stored team name of an id
  * and the game rows whose source team is an id.
  */
module TournamentCsv {
  import opened Wrappers

  /** A game row of the games table: the two team ids and the two scores (None for NULL). */
  datatype GameRow = GameRow(homeTeamId: string, awayTeamId: string, homeScore: Option<int>, awayScore: Option<int>)

  /** The returned dictionary `{"G", "W", "L", "RS", "RA"}`. */
  datatype Stats = Stats(played: int, won: int, lost: int, scored: int, allowed: int)

  /** A roster entry: team id, pool, and the label when the entry has one. */
  datatype RosterEntry = RosterEntry(teamId: string, pool: string, givenLabel: Option<string>)

  /** An output row: Team, Pool, G, W, L, RS, RA. */
  datatype CsvRow = CsvRow(team: string, pool: string, played: int, won: int, lost: int, scored: int, allowed: int)

  const Header: seq<string> := ["Team", "Pool", "G", "W", "L", "RS", "RA"]

  /** The stored name of a team id, None when there is no row or its name is NULL. */
  type NameLookup = string -> Option<string>

  /** The game rows scraped from a team id's schedule. */
  type GamesLookup = string -> seq<GameRow>

  // ---------------------------------------------------------------------------
  // fetch_team_name

  /** The stored name when it is non-empty, else the label when non-empty, else the id. */
  function FetchTeamName(stored: Option<string>, teamId: string, labelFallback: string): (r: string)
    ensures r == teamId || r == labelFallback || (stored.Some? && r == stored.value)
    ensures stored.Some? && stored.value != [] ==> r == stored.value
    ensures (stored.None? || stored.value == []) && labelFallback != [] ==> r == labelFallback
    ensures (stored.None? || stored.value == []) && labelFallback == [] ==> r == teamId
  {
    if stored.Some? && stored.value != [] then stored.value
    else if labelFallback != [] then labelFallback
    else teamId
  }

  /** `entry.get("label", team_id)`. */
  function LabelOf(e: RosterEntry): string
  {
    e.givenLabel.GetOr(e.teamId)
  }

  /** A team with a non-empty id always gets a non-empty name. */
  lemma TeamNameNonEmpty(stored: Option<string>, e: RosterEntry)
    requires e.teamId != []
    ensures FetchTeamName(stored, e.teamId, LabelOf(e)) != []
  {
  }

  // ---------------------------------------------------------------------------
  // aggregate_team_stats_by_id

  /** The team is home exactly when the home id is its id; otherwise it is taken as away. */
  predicate IsHome(row: GameRow, teamId: string)
  {
    row.homeTeamId == teamId
  }

  /** The team's runs in a game, a NULL score read as 0. */
  function TeamRuns(row: GameRow, teamId: string): int
  {
    if IsHome(row, teamId) then row.homeScore.GetOr(0) else row.awayScore.GetOr(0)
  }

  /** The opponent's runs in a game, a NULL score read as 0. */
  function OppRuns(row: GameRow, teamId: string): int
  {
    if IsHome(row, teamId) then row.awayScore.GetOr(0) else row.homeScore.GetOr(0)
  }

  /** One iteration of the loop. */
  function AddGame(s: Stats, row: GameRow, teamId: string): Stats
  {
    var ours := TeamRuns(row, teamId);
    var theirs := OppRuns(row, teamId);
    Stats(s.played + 1,
      s.won + (if ours > theirs then 1 else 0),
      s.lost + (if ours < theirs then 1 else 0),
      s.scored + ours,
      s.allowed + theirs)
  }

  /** The totals the loop returns. */
  function Aggregate(teamId: string, rows: seq<GameRow>): Stats
  {
    if rows == [] then Stats(0, 0, 0, 0, 0)
    else AddGame(Aggregate(teamId, rows[..|rows| - 1]), rows[|rows| - 1], teamId)
  }

  lemma AggregateStep(teamId: string, rows: seq<GameRow>, i: nat)
    requires i < |rows|
    ensures Aggregate(teamId, rows[..i + 1]) == AddGame(Aggregate(teamId, rows[..i]), rows[i], teamId)
  {
    assert rows[..i + 1][..i] == rows[..i];
  }

  /** `aggregate_team_stats_by_id` over the rows the query returns. */
  method AggregateTeamStatsById(teamId: string, rows: seq<GameRow>) returns (stats: Stats)
    ensures stats == Aggregate(teamId, rows)
  {
    var g, w, l, rs, ra := 0, 0, 0, 0, 0;
    for i := 0 to |rows|
      invariant Stats(g, w, l, rs, ra) == Aggregate(teamId, rows[..i])
    {
      AggregateStep(teamId, rows, i);
      var row := rows[i];
      var homeScore := row.homeScore.GetOr(0);
      var awayScore := row.awayScore.GetOr(0);
      var isHome := row.homeTeamId == teamId;
      var teamRuns := if isHome then homeScore else awayScore;
      var oppRuns := if isHome then awayScore else homeScore;
      rs := rs + teamRuns;
      ra := ra + oppRuns;
      g := g + 1;
      if teamRuns > oppRuns {
        w := w + 1;
      } else if teamRuns < oppRuns {
        l := l + 1;
      }
    }
    assert rows[..|rows|] == rows;
    stats := Stats(g, w, l, rs, ra);
  }

  /** The runs the team scored over the rows. */
  function RunsFor(teamId: string, rows: seq<GameRow>): int
  {
    if rows == [] then 0 else TeamRuns(rows[0], teamId) + RunsFor(teamId, rows[1..])
  }

  /** The runs scored against the team over the rows. */
  function RunsAgainst(teamId: string, rows: seq<GameRow>): int
  {
    if rows == [] then 0 else OppRuns(rows[0], teamId) + RunsAgainst(teamId, rows[1..])
  }

  /** The number of rows where the team outscored (`sign` 1) or was outscored (`sign` -1). */
  function Decided(teamId: string, rows: seq<GameRow>, sign: int): nat
  {
    if rows == [] then 0
    else
      var d := TeamRuns(rows[0], teamId) - OppRuns(rows[0], teamId);
      (if d * sign > 0 then 1 else 0) + Decided(teamId, rows[1..], sign)
  }

  function Ties(teamId: string, rows: seq<GameRow>): nat
  {
    if rows == [] then 0
    else (if TeamRuns(rows[0], teamId) == OppRuns(rows[0], teamId) then 1 else 0) + Ties(teamId, rows[1..])
  }

  lemma {:induction false} SumsAppend(teamId: string, rows: seq<GameRow>, row: GameRow)
    ensures RunsFor(teamId, rows + [row]) == RunsFor(teamId, rows) + TeamRuns(row, teamId)
    ensures RunsAgainst(teamId, rows + [row]) == RunsAgainst(teamId, rows) + OppRuns(row, teamId)
    ensures Decided(teamId, rows + [row], 1) == Decided(teamId, rows, 1) + (if TeamRuns(row, teamId) > OppRuns(row, teamId) then 1 else 0)
    ensures Decided(teamId, rows + [row], -1) == Decided(teamId, rows, -1) + (if TeamRuns(row, teamId) < OppRuns(row, teamId) then 1 else 0)
    ensures Ties(teamId, rows + [row]) == Ties(teamId, rows) + (if TeamRuns(row, teamId) == OppRuns(row, teamId) then 1 else 0)
  {
    if rows != [] {
      assert (rows + [row])[1..] == rows[1..] + [row];
      SumsAppend(teamId, rows[1..], row);
    } else {
      assert [] + [row] == [row];
    }
  }

  /** G is the number of game rows; RS and RA are the team's and the opponents' runs; W and L
      count the games the team won and lost, and the remaining games are ties. */
  lemma {:induction false} AggregateMeaning(teamId: string, rows: seq<GameRow>)
    ensures var s := Aggregate(teamId, rows);
      && s.played == |rows|
      && s.scored == RunsFor(teamId, rows)
      && s.allowed == RunsAgainst(teamId, rows)
      && s.won == Decided(teamId, rows, 1)
      && s.lost == Decided(teamId, rows, -1)
      && s.played == s.won + s.lost + Ties(teamId, rows)
  {
    if rows != [] {
      var init := rows[..|rows| - 1];
      AggregateMeaning(teamId, init);
      SumsAppend(teamId, init, rows[|rows| - 1]);
      assert init + [rows[|rows| - 1]] == rows;
    }
  }

  /** W + L never exceeds G. */
  lemma AggregateWithinGames(teamId: string, rows: seq<GameRow>)
    ensures var s := Aggregate(teamId, rows); 0 <= s.won && 0 <= s.lost && s.won + s.lost <= s.played
  {
    AggregateMeaning(teamId, rows);
  }

  /** A row with a missing score counts as a 0-0 tie for that score: it adds a game and
      changes neither wins nor losses when both are missing. */
  lemma MissingScoresTie(s: Stats, home: string, away: string, teamId: string)
    ensures AddGame(s, GameRow(home, away, None, None), teamId) == Stats(s.played + 1, s.won, s.lost, s.scored, s.allowed)
    ensures AddGame(s, GameRow(home, away, None, None), teamId) == AddGame(s, GameRow(home, away, Some(0), Some(0)), teamId)
  {
  }

  /** The team's runs come from the home score exactly when the home id matches. */
  lemma SidesOfRow(row: GameRow, teamId: string)
    ensures row.homeTeamId == teamId ==> TeamRuns(row, teamId) == row.homeScore.GetOr(0) && OppRuns(row, teamId) == row.awayScore.GetOr(0)
    ensures row.homeTeamId != teamId ==> TeamRuns(row, teamId) == row.awayScore.GetOr(0) && OppRuns(row, teamId) == row.homeScore.GetOr(0)
  {
  }

  // ---------------------------------------------------------------------------
  // build_tournament_csv

  function EntryRow(e: RosterEntry, names: NameLookup, games: GamesLookup): CsvRow
  {
    var s := Aggregate(e.teamId, games(e.teamId));
    CsvRow(FetchTeamName(names(e.teamId), e.teamId, LabelOf(e)), e.pool, s.played, s.won, s.lost, s.scored, s.allowed)
  }

  /** The output rows for the roster, in roster order. */
  function OutputRows(roster: seq<RosterEntry>, names: NameLookup, games: GamesLookup): (r: seq<CsvRow>)
    ensures |r| == |roster|
  {
    if roster == [] then [] else OutputRows(roster[..|roster| - 1], names, games) + [EntryRow(roster[|roster| - 1], names, games)]
  }

  /** Row i is roster entry i's resolved name, pool and totals. */
  lemma {:induction false} OutputRowsAt(roster: seq<RosterEntry>, names: NameLookup, games: GamesLookup, i: nat)
    requires i < |roster|
    ensures OutputRows(roster, names, games)[i] == EntryRow(roster[i], names, games)
    ensures OutputRows(roster, names, games)[i].pool == roster[i].pool
    ensures OutputRows(roster, names, games)[i].played == |games(roster[i].teamId)|
  {
    if i < |roster| - 1 {
      OutputRowsAt(roster[..|roster| - 1], names, games, i);
    }
    AggregateMeaning(roster[i].teamId, games(roster[i].teamId));
  }

  /** `build_tournament_csv` without the file: the rows appended per roster entry. */
  method BuildTournamentCsv(roster: seq<RosterEntry>, names: NameLookup, games: GamesLookup) returns (rows: seq<CsvRow>)
    ensures rows == OutputRows(roster, names, games)
  {
    rows := [];
    for i := 0 to |roster|
      invariant rows == OutputRows(roster[..i], names, games)
    {
      assert roster[..i + 1][..i] == roster[..i];
      var entry := roster[i];
      var fallback := LabelOf(entry);
      var resolved := FetchTeamName(names(entry.teamId), entry.teamId, fallback);
      var stats := AggregateTeamStatsById(entry.teamId, games(entry.teamId));
      rows := rows + [CsvRow(resolved, entry.pool, stats.played, stats.won, stats.lost, stats.scored, stats.allowed)];
    }
    assert roster[..|roster|] == roster;
  }
}
