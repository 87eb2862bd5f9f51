/**
  * The threat board's aggregation: the per-team totals built from the scraped games (a
  * dictionary in first-seen order), the restriction to the teams whose schedules were
  * scraped, the leaderboard rows and their sort, and the run of the whole board.
  */
module ThreatBoardTotals {
  import opened Wrappers
  import opened Text
  import opened Sorting
  import opened ThreatBoard

  /** A team's G, W, L, RS and RA. */
  datatype Totals = Totals(played: int, won: int, lost: int, scored: int, allowed: int)

  const Zero := Totals(0, 0, 0, 0, 0)

  /** A dictionary from team name to totals: its keys in insertion order and the values. */
  datatype Table = Table(order: seq<string>, stats: map<string, Totals>)

  predicate NoDuplicates(s: seq<string>)
  {
    forall i, j :: 0 <= i < j < |s| ==> s[i] != s[j]
  }

  /** The key list and the map agree, and no key is listed twice. */
  predicate ValidTable(t: Table)
  {
    NoDuplicates(t.order) && (forall k :: k in t.stats ==> k in t.order) && (forall k :: k in t.order ==> k in t.stats)
  }

  // ---------------------------------------------------------------------------
  // build_team_totals

  /** A game is counted when its status is "final" in any case and both scores are there. */
  predicate Counted(g: Game)
  {
    ToLower(g.status) == "final" && g.homeScore.Some? && g.awayScore.Some?
  }

  /** `ensure(team)`: a team first seen is added, at the end, with zero totals; a known team and
      every other entry are left as they were. */
  function Ensure(t: Table, team: string): (r: Table)
    ensures r.stats.Keys == t.stats.Keys + {team}
    ensures forall k :: k in t.stats ==> r.stats[k] == t.stats[k]
    ensures team !in t.stats ==> r.stats[team] == Zero && r.order == t.order + [team]
    ensures team in t.stats ==> r.order == t.order
  {
    if team in t.stats then t else Table(t.order + [team], t.stats[team := Zero])
  }

  /** One side's share of a game: a game played, its runs for and against, and a win or a
      loss unless the game was tied. */
  function Credit(x: Totals, runsFor: int, runsAgainst: int): Totals
  {
    Totals(x.played + 1,
      x.won + (if runsFor > runsAgainst then 1 else 0),
      x.lost + (if runsFor < runsAgainst then 1 else 0),
      x.scored + runsFor,
      x.allowed + runsAgainst)
  }

  function Credited(t: Table, team: string, runsFor: int, runsAgainst: int): Table
    requires team in t.stats
  {
    Table(t.order, CreditTeam(t.stats, team, runsFor, runsAgainst))
  }

  function CreditTeam(stats: map<string, Totals>, team: string, runsFor: int, runsAgainst: int): map<string, Totals>
    requires team in stats
  {
    stats[team := Credit(stats[team], runsFor, runsAgainst)]
  }

  /** One iteration of the loop over games. */
  function GameStep(t: Table, g: Game): Table
  {
    if !Counted(g) then t
    else CountGame(t, NormalizedName(g.homeTeam), NormalizedName(g.awayTeam), g.homeScore.value, g.awayScore.value)
  }

  /** A counted game between `home` and `away`: both ensured, then each side credited. */
  function CountGame(t: Table, home: string, away: string, homeRuns: int, awayRuns: int): Table
  {
    var t1 := Ensure(Ensure(t, home), away);
    Credited(Credited(t1, home, homeRuns, awayRuns), away, awayRuns, homeRuns)
  }

  /** The dictionary `build_team_totals` returns. */
  function TeamTotals(games: seq<Game>): Table
  {
    if games == [] then Table([], map[]) else GameStep(TeamTotals(games[..|games| - 1]), games[|games| - 1])
  }

  lemma TeamTotalsStep(games: seq<Game>, i: nat)
    requires i < |games|
    ensures TeamTotals(games[..i + 1]) == GameStep(TeamTotals(games[..i]), games[i])
  {
    assert games[..i + 1][..i] == games[..i];
    assert games[..i + 1][i] == games[i];
  }

  /** `build_team_totals`, statement by statement. */
  method BuildTeamTotals(games: seq<Game>) returns (teams: Table)
    ensures teams == TeamTotals(games)
  {
    var order: seq<string> := [];
    var stats: map<string, Totals> := map[];
    for i := 0 to |games|
      invariant Table(order, stats) == TeamTotals(games[..i])
    {
      TeamTotalsStep(games, i);
      var g := games[i];
      if ToLower(g.status) != "final" {
        continue;
      }
      if g.homeScore.None? || g.awayScore.None? {
        continue;
      }
      var home := NormalizeTeamName(g.homeTeam);
      var away := NormalizeTeamName(g.awayTeam);
      if home !in stats {
        order, stats := order + [home], stats[home := Zero];
      }
      if away !in stats {
        order, stats := order + [away], stats[away := Zero];
      }
      stats := AddGame(stats, home, away, g.homeScore.value, g.awayScore.value);
    }
    assert games[..|games|] == games;
    teams := Table(order, stats);
  }

  /** The `+=` statements for one counted game. */
  method AddGame(stats0: map<string, Totals>, home: string, away: string, homeRuns: int, awayRuns: int)
    returns (stats: map<string, Totals>)
    requires home in stats0 && away in stats0
    ensures stats == CreditTeam(CreditTeam(stats0, home, homeRuns, awayRuns), away, awayRuns, homeRuns)
  {
    stats := stats0;
    stats := stats[home := stats[home].(played := stats[home].played + 1)];
    stats := stats[away := stats[away].(played := stats[away].played + 1)];
    stats := stats[home := stats[home].(scored := stats[home].scored + homeRuns)];
    stats := stats[home := stats[home].(allowed := stats[home].allowed + awayRuns)];
    stats := stats[away := stats[away].(scored := stats[away].scored + awayRuns)];
    stats := stats[away := stats[away].(allowed := stats[away].allowed + homeRuns)];
    if homeRuns > awayRuns {
      stats := stats[home := stats[home].(won := stats[home].won + 1)];
      stats := stats[away := stats[away].(lost := stats[away].lost + 1)];
    } else if homeRuns < awayRuns {
      stats := stats[away := stats[away].(won := stats[away].won + 1)];
      stats := stats[home := stats[home].(lost := stats[home].lost + 1)];
    }
    if home == away {
      assert stats[home] == Credit(Credit(stats0[home], homeRuns, awayRuns), awayRuns, homeRuns);
    } else {
      assert stats[home] == Credit(stats0[home], homeRuns, awayRuns);
      assert stats[away] == Credit(stats0[away], awayRuns, homeRuns);
    }
  }

  // ---------------------------------------------------------------------------
  // what the totals add up to

  datatype Field = Played | Won | Lost | Scored | Allowed

  function Get(x: Totals, f: Field): int
  {
    match f
    case Played => x.played
    case Won => x.won
    case Lost => x.lost
    case Scored => x.scored
    case Allowed => x.allowed
  }

  /** A column's total over the listed teams (a team missing from the map adds nothing). */
  function Sum(order: seq<string>, stats: map<string, Totals>, f: Field): int
  {
    if order == [] then 0
    else
      var k := order[|order| - 1];
      Sum(order[..|order| - 1], stats, f) + (if k in stats then Get(stats[k], f) else 0)
  }

  function TableSum(t: Table, f: Field): int
  {
    Sum(t.order, t.stats, f)
  }

  /** What one side's share of a game adds to a column. */
  function Delta(f: Field, runsFor: int, runsAgainst: int): int
  {
    match f
    case Played => 1
    case Won => if runsFor > runsAgainst then 1 else 0
    case Lost => if runsFor < runsAgainst then 1 else 0
    case Scored => runsFor
    case Allowed => runsAgainst
  }

  /** What the counted games add to a column, both sides together. */
  function GamesDelta(games: seq<Game>, f: Field): int
  {
    if games == [] then 0
    else
      var g := games[|games| - 1];
      GamesDelta(games[..|games| - 1], f)
        + (if Counted(g) then Delta(f, g.homeScore.value, g.awayScore.value) + Delta(f, g.awayScore.value, g.homeScore.value) else 0)
  }

  function CountedGames(games: seq<Game>): nat
  {
    if games == [] then 0 else CountedGames(games[..|games| - 1]) + (if Counted(games[|games| - 1]) then 1 else 0)
  }

  lemma {:induction false} SumIgnores(order: seq<string>, stats: map<string, Totals>, k: string, v: Totals, f: Field)
    requires k !in order
    ensures Sum(order, stats[k := v], f) == Sum(order, stats, f)
  {
    if order != [] {
      SumIgnores(order[..|order| - 1], stats, k, v, f);
    }
  }

  lemma {:induction false} SumUpdate(order: seq<string>, stats: map<string, Totals>, k: string, v: Totals, f: Field)
    requires NoDuplicates(order) && k in order && k in stats
    ensures Sum(order, stats[k := v], f) == Sum(order, stats, f) - Get(stats[k], f) + Get(v, f)
  {
    var init := order[..|order| - 1];
    assert NoDuplicates(init);
    if order[|order| - 1] == k {
      assert k !in init;
      SumIgnores(init, stats, k, v, f);
    } else {
      assert k in init by {
        var i :| 0 <= i < |order| && order[i] == k;
        assert i < |order| - 1 && init[i] == k;
      }
      SumUpdate(init, stats, k, v, f);
    }
  }

  lemma SumAppend(order: seq<string>, stats: map<string, Totals>, k: string, f: Field)
    requires k !in order
    ensures Sum(order + [k], stats[k := Zero], f) == Sum(order, stats, f)
  {
    assert (order + [k])[..|order|] == order;
    SumIgnores(order, stats, k, Zero, f);
  }

  lemma EnsureSum(t: Table, team: string, f: Field)
    requires ValidTable(t)
    ensures ValidTable(Ensure(t, team))
    ensures TableSum(Ensure(t, team), f) == TableSum(t, f)
    ensures Ensure(t, team).stats.Keys == t.stats.Keys + {team}
    ensures forall k :: k in t.stats ==> Ensure(t, team).stats[k] == t.stats[k]
  {
    if team !in t.stats {
      SumAppend(t.order, t.stats, team, f);
      AppendNew(t.order, team);
    }
  }

  lemma AppendNew(s: seq<string>, x: string)
    requires NoDuplicates(s) && x !in s
    ensures NoDuplicates(s + [x])
  {
    var r := s + [x];
    forall i, j | 0 <= i < j < |r| ensures r[i] != r[j] {
      assert r[i] == s[i];
    }
  }

  lemma CreditedSum(t: Table, team: string, runsFor: int, runsAgainst: int, f: Field)
    requires ValidTable(t) && team in t.stats
    ensures ValidTable(Credited(t, team, runsFor, runsAgainst))
    ensures TableSum(Credited(t, team, runsFor, runsAgainst), f) == TableSum(t, f) + Delta(f, runsFor, runsAgainst)
  {
    SumUpdate(t.order, t.stats, team, Credit(t.stats[team], runsFor, runsAgainst), f);
  }

  /** A counted game adds both sides' shares to every column; any other game changes nothing. */
  lemma GameStepSum(t: Table, g: Game, f: Field)
    requires ValidTable(t)
    ensures ValidTable(GameStep(t, g))
    ensures TableSum(GameStep(t, g), f) == TableSum(t, f)
      + (if Counted(g) then Delta(f, g.homeScore.value, g.awayScore.value) + Delta(f, g.awayScore.value, g.homeScore.value) else 0)
  {
    if Counted(g) {
      var home := NormalizedName(g.homeTeam);
      var away := NormalizedName(g.awayTeam);
      EnsureSum(t, home, f);
      var t0 := Ensure(t, home);
      EnsureSum(t0, away, f);
      var t1 := Ensure(t0, away);
      CreditedSum(t1, home, g.homeScore.value, g.awayScore.value, f);
      var t2 := Credited(t1, home, g.homeScore.value, g.awayScore.value);
      CreditedSum(t2, away, g.awayScore.value, g.homeScore.value, f);
    }
  }

  /** Every column of the totals is what the counted games add to it. */
  lemma {:induction false} TeamTotalsSum(games: seq<Game>, f: Field)
    ensures ValidTable(TeamTotals(games))
    ensures TableSum(TeamTotals(games), f) == GamesDelta(games, f)
  {
    if games != [] {
      TeamTotalsSum(games[..|games| - 1], f);
      GameStepSum(TeamTotals(games[..|games| - 1]), games[|games| - 1], f);
    }
  }

  lemma {:induction false} GamesDeltaBalance(games: seq<Game>)
    ensures GamesDelta(games, Scored) == GamesDelta(games, Allowed)
    ensures GamesDelta(games, Won) == GamesDelta(games, Lost)
    ensures GamesDelta(games, Played) == 2 * CountedGames(games)
  {
    if games != [] {
      GamesDeltaBalance(games[..|games| - 1]);
    }
  }

  /** Conservation: the runs scored by all teams are the runs allowed by all teams, the wins
      are the losses, and every counted game is played by two teams. */
  lemma TeamTotalsBalance(games: seq<Game>)
    ensures TableSum(TeamTotals(games), Scored) == TableSum(TeamTotals(games), Allowed)
    ensures TableSum(TeamTotals(games), Won) == TableSum(TeamTotals(games), Lost)
    ensures TableSum(TeamTotals(games), Played) == 2 * CountedGames(games)
  {
    TeamTotalsSum(games, Scored);
    TeamTotalsSum(games, Allowed);
    TeamTotalsSum(games, Won);
    TeamTotalsSum(games, Lost);
    TeamTotalsSum(games, Played);
    GamesDeltaBalance(games);
  }

  /** No count is negative and no team has more wins and losses than games. */
  predicate RecordsWithinGames(t: Table)
  {
    forall k :: k in t.stats ==>
      var x := t.stats[k]; 0 <= x.won && 0 <= x.lost && x.won + x.lost <= x.played
  }

  lemma {:induction false} TeamTotalsWithinGames(games: seq<Game>)
    ensures RecordsWithinGames(TeamTotals(games))
  {
    if games != [] {
      var g := games[|games| - 1];
      TeamTotalsWithinGames(games[..|games| - 1]);
      if Counted(g) {
        CountGameWithinGames(TeamTotals(games[..|games| - 1]), NormalizedName(g.homeTeam), NormalizedName(g.awayTeam), g.homeScore.value, g.awayScore.value);
      }
    }
  }

  lemma CountGameWithinGames(t: Table, home: string, away: string, homeRuns: int, awayRuns: int)
    requires RecordsWithinGames(t)
    ensures RecordsWithinGames(CountGame(t, home, away, homeRuns, awayRuns))
  {
  }

  /** A team's wins (or losses) before a game, zero for a team not yet seen. */
  function WonBefore(t: Table, k: string): int
  {
    if k in t.stats then t.stats[k].won else 0
  }

  function LostBefore(t: Table, k: string): int
  {
    if k in t.stats then t.stats[k].lost else 0
  }

  /** A tied game changes neither wins nor losses of any team. */
  lemma TieKeepsRecords(t: Table, g: Game)
    requires Counted(g) && g.homeScore.value == g.awayScore.value
    ensures forall k :: k in GameStep(t, g).stats ==>
      GameStep(t, g).stats[k].won == WonBefore(t, k) && GameStep(t, g).stats[k].lost == LostBefore(t, k)
  {
    TieCountsNeither(t, NormalizedName(g.homeTeam), NormalizedName(g.awayTeam), g.homeScore.value);
  }

  lemma TieCountsNeither(t: Table, home: string, away: string, runs: int)
    ensures var r := CountGame(t, home, away, runs, runs);
      forall k :: k in r.stats ==> r.stats[k].won == WonBefore(t, k) && r.stats[k].lost == LostBefore(t, k)
  {
  }

  /** A counted game between two teams adds one game to each, and leaves every other team alone. */
  lemma CountedGameAddsOne(t: Table, g: Game)
    requires Counted(g) && NormalizedName(g.homeTeam) != NormalizedName(g.awayTeam)
    ensures var r := GameStep(t, g); var home := NormalizedName(g.homeTeam); var away := NormalizedName(g.awayTeam);
      && r.stats.Keys == t.stats.Keys + {home, away}
      && r.stats[home].played == (if home in t.stats then t.stats[home].played else 0) + 1
      && r.stats[away].played == (if away in t.stats then t.stats[away].played else 0) + 1
      && (forall k :: k in t.stats && k != home && k != away ==> r.stats[k] == t.stats[k])
  {
    CountGameAddsOne(t, NormalizedName(g.homeTeam), NormalizedName(g.awayTeam), g.homeScore.value, g.awayScore.value);
  }

  lemma CountGameAddsOne(t: Table, home: string, away: string, homeRuns: int, awayRuns: int)
    requires home != away
    ensures var r := CountGame(t, home, away, homeRuns, awayRuns);
      && r.stats.Keys == t.stats.Keys + {home, away}
      && r.stats[home].played == (if home in t.stats then t.stats[home].played else 0) + 1
      && r.stats[away].played == (if away in t.stats then t.stats[away].played else 0) + 1
      && (forall k :: k in t.stats && k != home && k != away ==> r.stats[k] == t.stats[k])
  {
  }

  /** The games that count. */
  function CountedOnly(games: seq<Game>): (r: seq<Game>)
    ensures forall k :: 0 <= k < |r| ==> Counted(r[k])
  {
    if games == [] then []
    else CountedOnly(games[..|games| - 1]) + (if Counted(games[|games| - 1]) then [games[|games| - 1]] else [])
  }

  /** Games that are not final or lack a score have no effect at all. */
  lemma {:induction false} UncountedGamesIgnored(games: seq<Game>)
    ensures TeamTotals(CountedOnly(games)) == TeamTotals(games)
  {
    if games != [] {
      var init := games[..|games| - 1];
      var g := games[|games| - 1];
      UncountedGamesIgnored(init);
      var c := CountedOnly(games);
      if Counted(g) {
        assert c == CountedOnly(init) + [g];
        assert c[..|c| - 1] == CountedOnly(init) && c[|c| - 1] == g;
        assert TeamTotals(c) == GameStep(TeamTotals(CountedOnly(init)), g);
      } else {
        assert c == CountedOnly(init);
        assert TeamTotals(games) == GameStep(TeamTotals(init), g);
      }
    }
  }

  // ---------------------------------------------------------------------------
  // the restriction to scraped schedule teams

  /** The listed names that are in `names`, in order. */
  function KeepNames(order: seq<string>, names: set<string>): (r: seq<string>)
    ensures forall k :: k in r <==> k in order && k in names
  {
    if order == [] then []
    else KeepNames(order[..|order| - 1], names) + (if order[|order| - 1] in names then [order[|order| - 1]] else [])
  }

  lemma {:induction false} KeepNamesNoDuplicates(order: seq<string>, names: set<string>)
    requires NoDuplicates(order)
    ensures NoDuplicates(KeepNames(order, names))
  {
    if order != [] {
      var init := order[..|order| - 1];
      assert NoDuplicates(init);
      KeepNamesNoDuplicates(init, names);
      var x := order[|order| - 1];
      if x in names {
        assert x !in init;
        AppendNew(KeepNames(init, names), x);
      }
    }
  }

  /** `{team: stats for team, stats in totals.items() if team in SCRAPED_TEAM_NAMES}`. */
  function Restrict(t: Table, names: set<string>): (r: Table)
    ensures forall k :: k in r.stats ==> k in names && k in t.stats && r.stats[k] == t.stats[k]
  {
    Table(KeepNames(t.order, names), map k | k in t.stats && k in names :: t.stats[k])
  }

  /** The restricted dictionary is still a dictionary: every kept team keeps its key's place
      and values, and every team of both is kept. */
  lemma RestrictValid(t: Table, names: set<string>)
    requires ValidTable(t)
    ensures ValidTable(Restrict(t, names))
    ensures forall k :: k in t.stats && k in names ==> k in Restrict(t, names).stats
  {
    KeepNamesNoDuplicates(t.order, names);
  }

  // ---------------------------------------------------------------------------
  // write_tournament_csv

  const LeaderboardHeader: seq<string> := ["Team", "Pool", "G", "W", "L", "RS", "RA"]

  /** `(team, "", G, W, L, RS, RA)`, the pool left blank. */
  datatype Row = Row(team: string, pool: string, played: int, won: int, lost: int, scored: int, allowed: int)

  function RowOf(team: string, x: Totals): Row
  {
    Row(team, "", x.played, x.won, x.lost, x.scored, x.allowed)
  }

  /** The rows in the dictionary's order. */
  function TableRows(order: seq<string>, stats: map<string, Totals>): (r: seq<Row>)
    requires forall k :: k in order ==> k in stats
    ensures |r| == |order|
    ensures forall i :: 0 <= i < |r| ==> r[i] == RowOf(order[i], stats[order[i]])
  {
    if order == [] then [] else TableRows(order[..|order| - 1], stats) + [RowOf(order[|order| - 1], stats[order[|order| - 1]])]
  }

  /** `w / g if g else 0`. */
  function WinPct(r: Row): real
  {
    if r.played != 0 then r.won as real / r.played as real else 0.0
  }

  /** With wins between zero and the games played, the win percentage is between 0 and 1. */
  lemma WinPctBounds(r: Row)
    requires 0 <= r.won <= r.played
    ensures 0.0 <= WinPct(r) <= 1.0
  {
    if r.played != 0 {
      assert r.won as real <= r.played as real;
    }
  }

  /** `sort_key(a) < sort_key(b)` for the key `(-win%, -(RS - RA), -RS)`: a higher win
      percentage first, then a higher run difference, then more runs scored. */
  function RowBefore(a: Row, b: Row): bool
  {
    WinPct(a) > WinPct(b)
    || (WinPct(a) == WinPct(b) && a.scored - a.allowed > b.scored - b.allowed)
    || (WinPct(a) == WinPct(b) && a.scored - a.allowed == b.scored - b.allowed && a.scored > b.scored)
  }

  /** A lexicographic comparison of keys is a strict weak order, so the sort is well defined. */
  lemma RowBeforeOrder()
    ensures StrictWeakOrder(RowBefore)
  {
    forall a, b, c | RowBefore(a, b) && RowBefore(b, c) ensures RowBefore(a, c) {
    }
    forall a, b, c | RowBefore(a, c) ensures RowBefore(a, b) || RowBefore(b, c) {
    }
  }

  /** The rows as written: the dictionary's rows sorted by the key. */
  function Leaderboard(t: Table): seq<Row>
    requires forall k :: k in t.order ==> k in t.stats
  {
    SortBy(TableRows(t.order, t.stats), RowBefore)
  }

  /** `write_tournament_csv` without the file: the rows appended in dictionary order, then sorted. */
  method WriteTournamentRows(t: Table) returns (rows: seq<Row>)
    requires forall k :: k in t.order ==> k in t.stats
    ensures rows == Leaderboard(t)
  {
    rows := [];
    for i := 0 to |t.order|
      invariant rows == TableRows(t.order[..i], t.stats)
    {
      assert t.order[..i + 1][..i] == t.order[..i];
      rows := rows + [RowOf(t.order[i], t.stats[t.order[i]])];
    }
    assert t.order[..|t.order|] == t.order;
    rows := SortBy(rows, RowBefore);
  }

  /** The leaderboard holds exactly the dictionary's rows, each once, ordered by descending
      win percentage, then descending run difference, then descending runs scored; rows with
      equal keys keep the dictionary's order. */
  lemma LeaderboardOrdered(t: Table)
    requires forall k :: k in t.order ==> k in t.stats
    ensures var rows := Leaderboard(t);
      && multiset(rows) == multiset(TableRows(t.order, t.stats))
      && (forall i, j :: 0 <= i < j < |rows| ==>
            && WinPct(rows[i]) >= WinPct(rows[j])
            && (WinPct(rows[i]) == WinPct(rows[j]) ==> rows[i].scored - rows[i].allowed >= rows[j].scored - rows[j].allowed)
            && (WinPct(rows[i]) == WinPct(rows[j]) && rows[i].scored - rows[i].allowed == rows[j].scored - rows[j].allowed
                ==> rows[i].scored >= rows[j].scored))
  {
    RowBeforeOrder();
    SortByCorrect(TableRows(t.order, t.stats), RowBefore);
  }

  lemma LeaderboardStable(t: Table, z: Row)
    requires forall k :: k in t.order ==> k in t.stats
    ensures TiedWith(Leaderboard(t), z, RowBefore) == TiedWith(TableRows(t.order, t.stats), z, RowBefore)
  {
    RowBeforeOrder();
    SortByStable(TableRows(t.order, t.stats), z, RowBefore);
  }

  // ---------------------------------------------------------------------------
  // main

  /** All games of the schedule pages in page order, and the set of schedule team names. */
  function ScrapeAll(pages: seq<SchedulePage>): (seq<Game>, set<string>)
  {
    if pages == [] then ([], {})
    else
      var (games, names) := ScrapeAll(pages[..|pages| - 1]);
      var page := pages[|pages| - 1];
      var team := TeamName(page.header);
      (games + PageGames(team, page.cards), names + {team})
  }

  /** The rows `main` writes for the given schedule pages and tournament filter. */
  function BoardRows(pages: seq<SchedulePage>, filter: Option<string>): seq<Row>
  {
    var (games, names) := ScrapeAll(pages);
    var totals := TeamTotals(FilterGamesForTournament(games, filter));
    TeamTotalsSum(FilterGamesForTournament(games, filter), Played);
    RestrictValid(totals, names);
    Leaderboard(Restrict(totals, names))
  }

  /** `main` after login: scrape every page, filter, total, restrict, write. */
  method RunThreatBoard(pages: seq<SchedulePage>, filter: Option<string>) returns (rows: seq<Row>)
    ensures rows == BoardRows(pages, filter)
  {
    var allGames: seq<Game> := [];
    var scraped: set<string> := {};
    for i := 0 to |pages|
      invariant (allGames, scraped) == ScrapeAll(pages[..i])
    {
      assert pages[..i + 1][..i] == pages[..i];
      var team, games := ScrapeScheduleGames(pages[i]);
      allGames := allGames + games;
      scraped := scraped + {team};
    }
    assert pages[..|pages|] == pages;
    var filtered := FilterGamesForTournament(allGames, filter);
    var totals := BuildTeamTotals(filtered);
    TeamTotalsSum(filtered, Played);
    RestrictValid(totals, scraped);
    rows := WriteTournamentRows(Restrict(totals, scraped));
  }

  /** Every schedule team name comes from one of the pages. */
  lemma {:induction false} ScrapedNamesFromPages(pages: seq<SchedulePage>)
    ensures forall n :: n in ScrapeAll(pages).1 ==> exists i :: 0 <= i < |pages| && n == TeamName(pages[i].header)
  {
    if pages != [] {
      var init := pages[..|pages| - 1];
      ScrapedNamesFromPages(init);
      forall n | n in ScrapeAll(pages).1 ensures exists i :: 0 <= i < |pages| && n == TeamName(pages[i].header) {
        if n in ScrapeAll(init).1 {
          var i :| 0 <= i < |init| && n == TeamName(init[i].header);
          assert pages[i] == init[i];
        } else {
          assert n == TeamName(pages[|pages| - 1].header);
        }
      }
    }
  }

  /** Only teams whose schedule page was scraped reach the board, each with a blank pool. */
  lemma BoardTeamsScraped(pages: seq<SchedulePage>, filter: Option<string>)
    ensures forall r :: r in BoardRows(pages, filter) ==>
      r.pool == "" && exists i :: 0 <= i < |pages| && r.team == TeamName(pages[i].header)
  {
    var (games, names) := ScrapeAll(pages);
    var filtered := FilterGamesForTournament(games, filter);
    TeamTotalsSum(filtered, Played);
    RestrictedRows(TeamTotals(filtered), names);
    ScrapedNamesFromPages(pages);
  }

  /** The leaderboard of a restricted dictionary names only kept teams, with a blank pool. */
  lemma RestrictedRows(t: Table, names: set<string>)
    requires ValidTable(t)
    ensures ValidTable(Restrict(t, names))
    ensures forall r :: r in Leaderboard(Restrict(t, names)) ==> r.pool == "" && r.team in names
  {
    RestrictValid(t, names);
    var restricted := Restrict(t, names);
    var base := TableRows(restricted.order, restricted.stats);
    RowBeforeOrder();
    SortByCorrect(base, RowBefore);
    forall r | r in Leaderboard(restricted) ensures r.pool == "" && r.team in names {
      assert r in multiset(base);
      var j :| 0 <= j < |base| && base[j] == r;
      assert r.team == restricted.order[j];
    }
  }
}
