/**
  * `gc_api_server.py`: the tournament CSV endpoint, which reuses the CSV builder's name
  * fallback and totals, and the team hitting endpoint's per-player derived statistics.
  * The rate statistics are exact rationals here; the server rounds floats to three places.
  */
module ApiServer {
  import opened Wrappers
  import opened Text
  import opened TournamentCsv

  // ---------------------------------------------------------------------------
  // /api/tournament.csv

  /** The cells `csv.writer` writes for an output row: the integers in decimal. */
  function RowCells(r: CsvRow): seq<string>
  {
    [r.team, r.pool, IntToString(r.played), IntToString(r.won), IntToString(r.lost), IntToString(r.scored), IntToString(r.allowed)]
  }

  function CellLines(rows: seq<CsvRow>): (lines: seq<seq<string>>)
    ensures |lines| == |rows|
    ensures forall i :: 0 <= i < |rows| ==> lines[i] == RowCells(rows[i])
  {
    if rows == [] then [] else CellLines(rows[..|rows| - 1]) + [RowCells(rows[|rows| - 1])]
  }

  /** `api_tournament_csv`: the header, then a line per roster entry as the CSV builder makes it. */
  method ApiTournamentCsv(roster: seq<RosterEntry>, names: NameLookup, games: GamesLookup) returns (lines: seq<seq<string>>)
    ensures lines == [Header] + CellLines(OutputRows(roster, names, games))
  {
    lines := [Header];
    for i := 0 to |roster|
      invariant lines == [Header] + CellLines(OutputRows(roster[..i], names, games))
    {
      CellLinesStep(roster, names, games, i);
      var entry := roster[i];
      var teamName := FetchTeamName(names(entry.teamId), entry.teamId, LabelOf(entry));
      var stats := AggregateTeamStatsById(entry.teamId, games(entry.teamId));
      lines := lines + [[teamName, entry.pool, IntToString(stats.played), IntToString(stats.won),
        IntToString(stats.lost), IntToString(stats.scored), IntToString(stats.allowed)]];
    }
    assert roster[..|roster|] == roster;
  }

  lemma CellLinesStep(roster: seq<RosterEntry>, names: NameLookup, games: GamesLookup, i: nat)
    requires i < |roster|
    ensures [Header] + CellLines(OutputRows(roster[..i + 1], names, games))
      == ([Header] + CellLines(OutputRows(roster[..i], names, games))) + [RowCells(EntryRow(roster[i], names, games))]
  {
    assert roster[..i + 1][..i] == roster[..i];
    var before := OutputRows(roster[..i], names, games);
    var after := OutputRows(roster[..i + 1], names, games);
    assert after == before + [EntryRow(roster[i], names, games)];
    assert after[..|after| - 1] == before;
  }

  /** The integer in cell `k` (2 to 6) of a row: G, W, L, RS, RA. */
  function Column(r: CsvRow, k: nat): int
    requires 2 <= k <= 6
  {
    if k == 2 then r.played else if k == 3 then r.won else if k == 4 then r.lost else if k == 5 then r.scored else r.allowed
  }

  /** The endpoint's body is the CSV builder's file: the same header, and for each roster
      entry its name and pool and totals that read back as the same integers. */
  lemma ApiMatchesBuilder(roster: seq<RosterEntry>, names: NameLookup, games: GamesLookup, i: nat)
    requires i < |roster|
    ensures var lines := [Header] + CellLines(OutputRows(roster, names, games));
      var row := OutputRows(roster, names, games)[i];
      && |lines| == |roster| + 1 && lines[0] == Header
      && lines[i + 1][0] == row.team && lines[i + 1][1] == roster[i].pool
      && forall k :: 2 <= k <= 6 ==> ParsePyInt(lines[i + 1][k]) == Some(Column(row, k))
  {
    var row := OutputRows(roster, names, games)[i];
    OutputRowsAt(roster, names, games, i);
    var lines := [Header] + CellLines(OutputRows(roster, names, games));
    assert lines[i + 1] == RowCells(row);
    forall k | 2 <= k <= 6 ensures ParsePyInt(lines[i + 1][k]) == Some(Column(row, k)) {
      CellReadsBack(row, k);
    }
  }

  /** Each integer cell reads back as the integer written. */
  lemma CellReadsBack(row: CsvRow, k: nat)
    requires 2 <= k <= 6
    ensures ParsePyInt(RowCells(row)[k]) == Some(Column(row, k))
  {
    var n := Column(row, k);
    assert RowCells(row)[k] == IntToString(n);
    ParsePyIntAt(RowCells(row), k, n);
  }

  // ---------------------------------------------------------------------------
  // /api/team_hitting

  /** A row of the per-player query: the name and the column sums, None for a NULL sum. */
  datatype PlayerSums = PlayerSums(
    name: string,
    ab: Option<int>, r: Option<int>, h: Option<int>, rbi: Option<int>, bb: Option<int>, so: Option<int>,
    doubles: Option<int>, triples: Option<int>, homeRuns: Option<int>, stolenBases: Option<int>)

  /** A player in the JSON response. */
  datatype PlayerLine = PlayerLine(
    name: string,
    ab: int, r: int, h: int, rbi: int, bb: int, so: int,
    doubles: int, triples: int, homeRuns: int, stolenBases: int,
    tb: int, pa: int,
    avg: real, obp: real, slg: real, ops: real, iso: real)

  /** Hits that were neither doubles, triples nor home runs, never below zero. */
  function Singles(h: int, doubles: int, triples: int, homeRuns: int): (s: int)
    ensures s >= 0 && s >= h - (doubles + triples + homeRuns)
    ensures s == 0 || s == h - (doubles + triples + homeRuns)
  {
    var s := h - (doubles + triples + homeRuns);
    if s < 0 then 0 else s
  }

  /** Total bases: singles plus two per double, three per triple and four per home run. Since
      singles are never negative, they are at least the bases of the extra-base hits. */
  function TotalBases(h: int, doubles: int, triples: int, homeRuns: int): (tb: int)
    ensures tb >= doubles * 2 + triples * 3 + homeRuns * 4
  {
    Singles(h, doubles, triples, homeRuns) + doubles * 2 + triples * 3 + homeRuns * 4
  }

  /** A quotient with the zero-division guard: 0 when the denominator is not positive. */
  function Rate(num: int, den: int): (q: real)
    ensures den <= 0 ==> q == 0.0
    ensures den > 0 ==> q * den as real == num as real
  {
    if den > 0 then num as real / den as real else 0.0
  }

  /** The derived line for one player, each NULL sum read as 0.  The zero-division guards:
      no at-bats gives AVG and SLG 0, no plate appearances gives OBP 0. */
  function DerivePlayer(p: PlayerSums): (line: PlayerLine)
    ensures line.ab <= 0 ==> line.avg == 0.0 && line.slg == 0.0
    ensures line.pa <= 0 ==> line.obp == 0.0
  {
    var ab := p.ab.GetOr(0);
    var h := p.h.GetOr(0);
    var bb := p.bb.GetOr(0);
    var doubles := p.doubles.GetOr(0);
    var triples := p.triples.GetOr(0);
    var homeRuns := p.homeRuns.GetOr(0);
    var tb := TotalBases(h, doubles, triples, homeRuns);
    var pa := ab + bb;
    var avg := Rate(h, ab);
    var obp := Rate(h + bb, pa);
    var slg := Rate(tb, ab);
    PlayerLine(p.name, ab, p.r.GetOr(0), h, p.rbi.GetOr(0), bb, p.so.GetOr(0),
      doubles, triples, homeRuns, p.stolenBases.GetOr(0),
      tb, pa, avg, obp, slg, obp + slg, slg - avg)
  }

  /** Total bases are never negative when the extra-base counts are not. */
  lemma TotalBasesNonNegative(h: int, doubles: int, triples: int, homeRuns: int)
    requires doubles >= 0 && triples >= 0 && homeRuns >= 0
    ensures TotalBases(h, doubles, triples, homeRuns) >= 0
  {
  }

  /** With consistent counts, total bases are the hits plus one extra base per double, two
      per triple and three per home run. */
  lemma TotalBasesOfHits(h: int, doubles: int, triples: int, homeRuns: int)
    requires h >= doubles + triples + homeRuns
    ensures TotalBases(h, doubles, triples, homeRuns) == h + doubles + 2 * triples + 3 * homeRuns
  {
  }

  lemma TotalBasesExample()
    ensures TotalBases(10, 2, 1, 1) == 17
  {
  }

  /** NULL sums read as zero, total bases are counted from the hit breakdown, and plate
      appearances are at-bats plus walks. */
  lemma DerivedCounts(p: PlayerSums)
    ensures var line := DerivePlayer(p);
      && line.name == p.name
      && line.ab == p.ab.GetOr(0) && line.h == p.h.GetOr(0) && line.bb == p.bb.GetOr(0)
      && line.r == p.r.GetOr(0) && line.rbi == p.rbi.GetOr(0) && line.so == p.so.GetOr(0)
      && line.doubles == p.doubles.GetOr(0) && line.triples == p.triples.GetOr(0)
      && line.homeRuns == p.homeRuns.GetOr(0)
      && line.stolenBases == p.stolenBases.GetOr(0)
      && line.tb == TotalBases(line.h, line.doubles, line.triples, line.homeRuns)
      && line.pa == line.ab + line.bb
  {
  }

  /** AVG is H/AB, OBP is (H + BB)/PA and SLG is TB/AB, each guarded against a zero
      denominator; OPS is OBP + SLG and ISO is SLG - AVG. */
  lemma DerivedRates(p: PlayerSums)
    ensures var line := DerivePlayer(p);
      && line.avg == Rate(line.h, line.ab)
      && line.obp == Rate(line.h + line.bb, line.pa)
      && line.slg == Rate(line.tb, line.ab)
      && line.ops == line.obp + line.slg && line.iso == line.slg - line.avg
  {
  }

  /** A player with no at-bats and no walks has every rate statistic 0. */
  lemma NoPlateAppearancesNoRates(p: PlayerSums)
    requires p.ab.GetOr(0) == 0 && p.bb.GetOr(0) == 0
    ensures var line := DerivePlayer(p);
      line.avg == 0.0 && line.obp == 0.0 && line.slg == 0.0 && line.ops == 0.0 && line.iso == 0.0
  {
  }

  /** With hits between zero and the at-bats and no negative counts, the average and the
      on-base percentage are between 0 and 1, and isolated power is not negative when the
      extra-base hits do not outnumber the hits. */
  lemma RatesBounded(p: PlayerSums)
    requires 0 <= p.h.GetOr(0) <= p.ab.GetOr(0) && p.bb.GetOr(0) >= 0
    requires p.doubles.GetOr(0) >= 0 && p.triples.GetOr(0) >= 0 && p.homeRuns.GetOr(0) >= 0
    ensures var line := DerivePlayer(p);
      && 0.0 <= line.avg <= 1.0
      && 0.0 <= line.obp <= 1.0
      && (line.h >= line.doubles + line.triples + line.homeRuns ==> line.iso >= 0.0)
  {
    RateBounds(p.h.GetOr(0), p.ab.GetOr(0), p.bb.GetOr(0), p.doubles.GetOr(0), p.triples.GetOr(0), p.homeRuns.GetOr(0));
  }

  lemma RateBounds(h: int, ab: int, bb: int, doubles: int, triples: int, homeRuns: int)
    requires 0 <= h <= ab && bb >= 0 && doubles >= 0 && triples >= 0 && homeRuns >= 0
    ensures 0.0 <= Rate(h, ab) <= 1.0
    ensures 0.0 <= Rate(h + bb, ab + bb) <= 1.0
    ensures h >= doubles + triples + homeRuns ==> Rate(TotalBases(h, doubles, triples, homeRuns), ab) - Rate(h, ab) >= 0.0
  {
    if ab > 0 {
      RateBetween(h, ab);
      RateBetween(h + bb, ab + bb);
      if h >= doubles + triples + homeRuns {
        TotalBasesOfHits(h, doubles, triples, homeRuns);
        RateMonotone(h, TotalBases(h, doubles, triples, homeRuns), ab);
      }
    } else if ab + bb > 0 {
      RateBetween(h + bb, ab + bb);
    }
  }

  lemma RateBetween(num: int, den: int)
    requires 0 <= num <= den && den > 0
    ensures 0.0 <= Rate(num, den) <= 1.0
  {
    assert num as real <= den as real;
  }

  lemma RateMonotone(a: int, b: int, den: int)
    requires a <= b && den > 0
    ensures Rate(a, den) <= Rate(b, den)
  {
    assert a as real <= b as real;
  }

  /** The lines of the query rows, in order. */
  function Players(rows: seq<PlayerSums>): (r: seq<PlayerLine>)
    ensures |r| == |rows|
  {
    if rows == [] then [] else Players(rows[..|rows| - 1]) + [DerivePlayer(rows[|rows| - 1])]
  }

  /** Line `i` is the derivation of query row `i`. */
  lemma {:induction false} PlayersAt(rows: seq<PlayerSums>, i: int)
    requires 0 <= i < |rows|
    ensures Players(rows)[i] == DerivePlayer(rows[i])
  {
    var n := |rows| - 1;
    if i < n {
      PlayersAt(rows[..n], i);
      assert rows[..n][i] == rows[i];
    }
  }

  lemma PlayersStep(rows: seq<PlayerSums>, i: int)
    requires 0 <= i < |rows|
    ensures Players(rows[..i + 1]) == Players(rows[..i]) + [DerivePlayer(rows[i])]
  {
    assert rows[..i + 1][..i] == rows[..i];
    assert rows[..i + 1][i] == rows[i];
  }

  /** `api_team_hitting`: a 400 error for a missing or blank team id; otherwise one line per
      query row, in the query's order.  `rows` are the rows the query returns for the id. */
  method ApiTeamHitting(teamIdArg: Option<string>, rows: seq<PlayerSums>) returns (r: Result<seq<PlayerLine>, (string, int)>)
    ensures Strip(teamIdArg.GetOr("")) == [] <==> r.Failure?
    ensures r.Failure? ==> r.error == ("team_id is required", 400)
    ensures r.Success? ==> r.value == Players(rows)
  {
    var teamId := Strip(teamIdArg.GetOr(""));
    if teamId == [] {
      return Failure(("team_id is required", 400));
    }
    var players: seq<PlayerLine> := [];
    for i := 0 to |rows|
      invariant players == Players(rows[..i])
    {
      PlayersStep(rows, i);
      players := players + [DerivePlayer(rows[i])];
    }
    assert rows[..|rows|] == rows;
    return Success(players);
  }
}
