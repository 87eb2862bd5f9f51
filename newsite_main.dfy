/**
  * The per-team loop of the newer scraper's `main`: the page team's id from its schedule
  * URL, home and away ids and scores for each game, the game id, and the rows written for
  * each box score, with the TeamMatch flag and the column truncations.  The database is
  * modelled by the records the loop would insert, in insertion order.
  */
module NewsiteMain {
  import opened Wrappers
  import opened Text
  import opened NewsiteSchedule
  import opened NewsiteBoxScore

  // ---------------------------------------------------------------------------
  // the page team and the game row

  /** `schedule_url.strip('/').split('/')[-2]`: the piece before the last; None where a URL
      without a '/' makes the index raise. */
  function PageTeamId(url: string): (r: Option<string>)
    ensures r.Some? ==> '/' !in r.value
    ensures r.None? <==> '/' !in Trim(url, {'/'})
  {
    var parts := Split(Trim(url, {'/'}), '/');
    SplitHasPieces(Trim(url, {'/'}), '/');
    if |parts| >= 2 then Some(parts[|parts| - 2]) else None
  }

  /** ".../teams/<id>/<name>/schedule/" yields the id before the last path segment. */
  lemma PageTeamIdOf(head: string, id: string, last: string, slashes: string)
    requires head != [] && head[0] != '/'
    requires '/' !in id && '/' !in last && last != []
    requires AllIn(slashes, {'/'})
    ensures PageTeamId(head + "/" + id + "/" + last + slashes) == Some(id)
  {
    var core := head + "/" + id + "/" + last;
    var url := core + slashes;
    TrimEndPastTail(core, slashes, {'/'});
    assert core[|core| - 1] == last[|last| - 1];
    assert TrimEnd(core, {'/'}) == core;
    assert core[0] == head[0];
    assert Trim(url, {'/'}) == core;
    assert core == (head + "/" + id) + ['/'] + last;
    SplitConcat(head + "/" + id, last, '/');
    assert head + "/" + id == head + ['/'] + id;
    SplitConcat(head, id, '/');
    SplitWithoutSeparator(id, '/');
    SplitWithoutSeparator(last, '/');
  }

  /** `home_id, away_id`: the page team on its side and '' for the opponent, whose id the
      schedule page does not show.  Anything but HOME, a missing flag included, counts as away. */
  function Roles(pageTeamId: string, homeOrAway: Option<Side>): (string, string)
  {
    if homeOrAway == Some(Home) then (pageTeamId, "") else ("", pageTeamId)
  }

  /** `f"{date_part}_{home_id}_vs_{away_id}"`. */
  function GameKey(date: string, homeId: string, awayId: string): string
  {
    date + "_" + homeId + "_vs_" + awayId
  }

  /** The row written to the games table. */
  datatype GameRecord = GameRecord(
    gameId: string, sourceTeamId: string, gameDate: string,
    homeTeamId: string, awayTeamId: string,
    homeScore: Option<int>, awayScore: Option<int>, boxScoreUrl: string)

  function GameRecordOf(pageTeamId: string, g: ScheduledGame): GameRecord
  {
    var (homeId, awayId) := Roles(pageTeamId, g.homeOrAway);
    var home := g.homeOrAway == Some(Home);
    GameRecord(GameKey(g.gameDate, homeId, awayId), pageTeamId, g.gameDate, homeId, awayId,
      if home then g.ourScore else g.oppScore,
      if home then g.oppScore else g.ourScore,
      g.boxScoreUrl)
  }

  /** The page team sits on exactly one side, the other side's id is empty, and the score on
      the page team's side is our score. */
  lemma GameRecordSides(pageTeamId: string, g: ScheduledGame)
    requires pageTeamId != []
    ensures var rec := GameRecordOf(pageTeamId, g);
      (rec.homeTeamId == pageTeamId <==> rec.awayTeamId != pageTeamId) &&
      (rec.homeTeamId == pageTeamId <==> g.homeOrAway == Some(Home)) &&
      (rec.homeTeamId == "" || rec.awayTeamId == "") &&
      (rec.homeTeamId == pageTeamId ==> rec.homeScore == g.ourScore && rec.awayScore == g.oppScore) &&
      (rec.awayTeamId == pageTeamId ==> rec.awayScore == g.ourScore && rec.homeScore == g.oppScore) &&
      rec.sourceTeamId == pageTeamId && rec.gameDate == g.gameDate && rec.boxScoreUrl == g.boxScoreUrl
  {
  }

  /** With no '_' in the date or the ids, the game id splits back into them. */
  lemma GameKeySplits(date: string, homeId: string, awayId: string)
    requires '_' !in date && '_' !in homeId && '_' !in awayId
    ensures Split(GameKey(date, homeId, awayId), '_') == [date, homeId, "vs", awayId]
  {
    var key := GameKey(date, homeId, awayId);
    assert key == date + ['_'] + (homeId + ['_'] + ("vs" + ['_'] + awayId));
    SplitConcat(date, homeId + ['_'] + ("vs" + ['_'] + awayId), '_');
    SplitConcat(homeId, "vs" + ['_'] + awayId, '_');
    SplitConcat("vs", awayId, '_');
    SplitWithoutSeparator(date, '_');
    SplitWithoutSeparator(homeId, '_');
    SplitWithoutSeparator("vs", '_');
    SplitWithoutSeparator(awayId, '_');
  }

  /** Hence different dates or sides give different game ids. */
  lemma GameKeyInjective(d1: string, h1: string, a1: string, d2: string, h2: string, a2: string)
    requires '_' !in d1 && '_' !in h1 && '_' !in a1
    requires '_' !in d2 && '_' !in h2 && '_' !in a2
    requires GameKey(d1, h1, a1) == GameKey(d2, h2, a2)
    ensures d1 == d2 && h1 == h2 && a1 == a2
  {
    GameKeySplits(d1, h1, a1);
    GameKeySplits(d2, h2, a2);
  }

  // ---------------------------------------------------------------------------
  // the stat rows

  /** A batting row as inserted: text columns cut to their widths, TeamMatch computed from
      the untruncated team id. */
  datatype BattingRecord = BattingRecord(
    gameId: string, teamId: string, teamName: string, homeOrAway: Side, teamMatch: string,
    opponent: string, playerName: string, position: string,
    ab: int, r: int, h: int, rbi: int, bb: int, so: int,
    doubles: int, triples: int, homeRuns: int, stolenBases: int, totalBases: int)

  datatype PitchingRecord = PitchingRecord(
    gameId: string, teamId: string, teamName: string, homeOrAway: Side, teamMatch: string,
    opponent: string, pitcherName: string, ip: string,
    hAllowed: int, rAllowed: int, erAllowed: int, bbAllowed: int, strikeouts: int,
    pitchesThrown: Option<int>, strikesThrown: Option<int>, battersFaced: Option<int>)

  function TeamMatch(teamId: string, pageTeamId: string): string
  {
    if teamId == pageTeamId then "Yes" else "No"
  }

  function BattingRecordOf(pageTeamId: string, b: BattingLine): (rec: BattingRecord)
    ensures |rec.teamId| <= 50 && |rec.teamName| <= 200 && |rec.opponent| <= 200
    ensures |rec.playerName| <= 200 && |rec.position| <= 20
    ensures rec.teamId <= b.info.teamId && rec.playerName <= b.playerName
    ensures rec.teamMatch == "Yes" <==> b.info.teamId == pageTeamId
  {
    BattingRecord(b.info.gameId, Take(b.info.teamId, 50), Take(b.info.teamName, 200), b.info.side,
      TeamMatch(b.info.teamId, pageTeamId), Take(b.info.opponent, 200),
      Take(b.playerName, 200), Take(b.position, 20),
      b.ab, b.r, b.h, b.rbi, b.bb, b.so, b.doubles, b.triples, b.homeRuns, b.stolenBases, b.totalBases)
  }

  function PitchingRecordOf(pageTeamId: string, p: PitchingLine): (rec: PitchingRecord)
    ensures |rec.teamId| <= 50 && |rec.teamName| <= 200 && |rec.opponent| <= 200
    ensures |rec.pitcherName| <= 200 && |rec.ip| <= 10
    ensures rec.teamId <= p.info.teamId && rec.pitcherName <= p.pitcherName && rec.ip <= p.ip
    ensures rec.teamMatch == "Yes" <==> p.info.teamId == pageTeamId
  {
    PitchingRecord(p.info.gameId, Take(p.info.teamId, 50), Take(p.info.teamName, 200), p.info.side,
      TeamMatch(p.info.teamId, pageTeamId), Take(p.info.opponent, 200),
      Take(p.pitcherName, 200), Take(p.ip, 10),
      p.hAllowed, p.rAllowed, p.erAllowed, p.bbAllowed, p.strikeouts,
      p.pitchesThrown, p.strikesThrown, p.battersFaced)
  }

  function BattingRecords(pageTeamId: string, rows: seq<BattingLine>): (r: seq<BattingRecord>)
    ensures |r| == |rows| && forall j :: 0 <= j < |rows| ==> r[j] == BattingRecordOf(pageTeamId, rows[j])
  {
    seq(|rows|, j requires 0 <= j < |rows| => BattingRecordOf(pageTeamId, rows[j]))
  }

  function PitchingRecords(pageTeamId: string, rows: seq<PitchingLine>): (r: seq<PitchingRecord>)
    ensures |r| == |rows| && forall j :: 0 <= j < |rows| ==> r[j] == PitchingRecordOf(pageTeamId, rows[j])
  {
    seq(|rows|, j requires 0 <= j < |rows| => PitchingRecordOf(pageTeamId, rows[j]))
  }

  /** `for row in away_bat + home_bat: ... cursor.execute(INSERT ...)`. */
  method InsertBatting(pageTeamId: string, rows: seq<BattingLine>) returns (recs: seq<BattingRecord>)
    ensures recs == BattingRecords(pageTeamId, rows)
  {
    recs := [];
    for i := 0 to |rows|
      invariant recs == BattingRecords(pageTeamId, rows[..i])
    {
      recs := recs + [BattingRecordOf(pageTeamId, rows[i])];
    }
    assert rows[..|rows|] == rows;
  }

  method InsertPitching(pageTeamId: string, rows: seq<PitchingLine>) returns (recs: seq<PitchingRecord>)
    ensures recs == PitchingRecords(pageTeamId, rows)
  {
    recs := [];
    for i := 0 to |rows|
      invariant recs == PitchingRecords(pageTeamId, rows[..i])
    {
      recs := recs + [PitchingRecordOf(pageTeamId, rows[i])];
    }
    assert rows[..|rows|] == rows;
  }

  /** In a game of the page team, the rows of the page team's side are flagged Yes and the
      opponent's rows No. */
  lemma TeamMatchBySide(pageTeamId: string, g: ScheduledGame, box: BoxScorePage, closeMatch: CloseMatch)
    requires pageTeamId != []
    ensures var rec := GameRecordOf(pageTeamId, g);
            var bs := BoxScoreOf(box, rec.homeTeamId, rec.awayTeamId, rec.gameId, closeMatch);
            var ours := if g.homeOrAway == Some(Home) then bs.homeBatting else bs.awayBatting;
            var theirs := if g.homeOrAway == Some(Home) then bs.awayBatting else bs.homeBatting;
      (forall j :: 0 <= j < |ours| ==> BattingRecordOf(pageTeamId, ours[j]).teamMatch == "Yes") &&
      (forall j :: 0 <= j < |theirs| ==> BattingRecordOf(pageTeamId, theirs[j]).teamMatch == "No")
  {
    var rec := GameRecordOf(pageTeamId, g);
    BoxScoreSides(box, rec.homeTeamId, rec.awayTeamId, rec.gameId, closeMatch);
  }

  lemma PitchingTeamMatchBySide(pageTeamId: string, g: ScheduledGame, box: BoxScorePage, closeMatch: CloseMatch)
    requires pageTeamId != []
    ensures var rec := GameRecordOf(pageTeamId, g);
            var bs := BoxScoreOf(box, rec.homeTeamId, rec.awayTeamId, rec.gameId, closeMatch);
            var ours := if g.homeOrAway == Some(Home) then bs.homePitching else bs.awayPitching;
            var theirs := if g.homeOrAway == Some(Home) then bs.awayPitching else bs.homePitching;
      (forall j :: 0 <= j < |ours| ==> PitchingRecordOf(pageTeamId, ours[j]).teamMatch == "Yes") &&
      (forall j :: 0 <= j < |theirs| ==> PitchingRecordOf(pageTeamId, theirs[j]).teamMatch == "No")
  {
    var rec := GameRecordOf(pageTeamId, g);
    BoxScoreSides(box, rec.homeTeamId, rec.awayTeamId, rec.gameId, closeMatch);
  }

  // ---------------------------------------------------------------------------
  // the loop over one team's games

  /** The box score page a URL yields, or None where loading or reading it raised (the game row
      is then already written and the game's stats are skipped). */
  type BoxScoreSource = string -> Option<BoxScorePage>

  /** What the loop has inserted so far for one team. */
  datatype TeamRun = TeamRun(games: seq<GameRecord>, batting: seq<BattingRecord>, pitching: seq<PitchingRecord>)

  function GameStep(pageTeamId: string, run: TeamRun, g: ScheduledGame, fetch: BoxScoreSource, closeMatch: CloseMatch): TeamRun
  {
    if g.boxScoreUrl == [] then run
    else
      var rec := GameRecordOf(pageTeamId, g);
      match fetch(g.boxScoreUrl)
      case None => run.(games := run.games + [rec])
      case Some(box) =>
        var bs := BoxScoreOf(box, rec.homeTeamId, rec.awayTeamId, rec.gameId, closeMatch);
        TeamRun(run.games + [rec],
          run.batting + BattingRecords(pageTeamId, bs.awayBatting + bs.homeBatting),
          run.pitching + PitchingRecords(pageTeamId, bs.awayPitching + bs.homePitching))
  }

  function TeamRunOf(pageTeamId: string, games: seq<ScheduledGame>, fetch: BoxScoreSource, closeMatch: CloseMatch): TeamRun
  {
    if games == [] then TeamRun([], [], [])
    else GameStep(pageTeamId, TeamRunOf(pageTeamId, games[..|games| - 1], fetch, closeMatch), games[|games| - 1], fetch, closeMatch)
  }

  /** The games that are written: those with a box score URL, in schedule order. */
  function GamesWithBoxScore(games: seq<ScheduledGame>): seq<ScheduledGame>
  {
    if games == [] then []
    else GamesWithBoxScore(games[..|games| - 1]) + (if games[|games| - 1].boxScoreUrl == [] then [] else [games[|games| - 1]])
  }

  function GameRecords(pageTeamId: string, games: seq<ScheduledGame>): (r: seq<GameRecord>)
    ensures |r| == |games| && forall j :: 0 <= j < |games| ==> r[j] == GameRecordOf(pageTeamId, games[j])
  {
    seq(|games|, j requires 0 <= j < |games| => GameRecordOf(pageTeamId, games[j]))
  }

  /** One games row per game with a box score URL, whatever happens to its box score. */
  lemma {:induction false} TeamRunGames(pageTeamId: string, games: seq<ScheduledGame>, fetch: BoxScoreSource, closeMatch: CloseMatch)
    ensures TeamRunOf(pageTeamId, games, fetch, closeMatch).games == GameRecords(pageTeamId, GamesWithBoxScore(games))
  {
    if games != [] {
      var init := games[..|games| - 1];
      var g := games[|games| - 1];
      TeamRunGames(pageTeamId, init, fetch, closeMatch);
      var prev := GamesWithBoxScore(init);
      if g.boxScoreUrl != [] {
        assert GamesWithBoxScore(games) == prev + [g];
        assert GameRecords(pageTeamId, prev + [g]) == GameRecords(pageTeamId, prev) + [GameRecordOf(pageTeamId, g)];
      }
    }
  }

  /** Every game the schedule parser yields has a URL, so none is skipped. */
  lemma {:induction false} WellFormedGamesAllKept(games: seq<ScheduledGame>)
    requires AllWellFormed(games)
    ensures GamesWithBoxScore(games) == games
  {
    if games != [] {
      var init := games[..|games| - 1];
      assert AllWellFormed(init) by {
        forall i | 0 <= i < |init| ensures WellFormed(init[i]) {
          assert init[i] == games[i];
        }
      }
      WellFormedGamesAllKept(init);
      assert WellFormed(games[|games| - 1]);
      assert init + [games[|games| - 1]] == games;
    }
  }

  /** `for g in games: ...` for one schedule page. */
  method ProcessGames(pageTeamId: string, games: seq<ScheduledGame>, fetch: BoxScoreSource, closeMatch: CloseMatch)
    returns (run: TeamRun)
    ensures run == TeamRunOf(pageTeamId, games, fetch, closeMatch)
  {
    run := TeamRun([], [], []);
    for i := 0 to |games|
      invariant run == TeamRunOf(pageTeamId, games[..i], fetch, closeMatch)
    {
      assert games[..i + 1][..i] == games[..i];
      var g := games[i];
      if g.boxScoreUrl != [] {
        var rec := GameRecordOf(pageTeamId, g);
        var box := fetch(g.boxScoreUrl);
        if box.Some? {
          var bs := ParseBoxScore(box.value, rec.homeTeamId, rec.awayTeamId, rec.gameId, closeMatch);
          var batting := InsertBatting(pageTeamId, bs.awayBatting + bs.homeBatting);
          var pitching := InsertPitching(pageTeamId, bs.awayPitching + bs.homePitching);
          run := TeamRun(run.games + [rec], run.batting + batting, run.pitching + pitching);
        } else {
          run := run.(games := run.games + [rec]);
        }
      }
    }
    assert games[..|games|] == games;
  }
}
