# Aces analytics stat pipeline in Dafny

This project models the stat pipeline of a youth-baseball analytics site. The pipeline scrapes GameChanger
schedule pages and box scores, turns their text into numbers and records, and aggregates those records
into leaderboards and per-player statistics.

The model covers seven Python files:

- `scrape_tournament_threat_board.py` builds a tournament "threat board" from schedule result cards.
  It parses cards, filters games, normalizes team names, totals G/W/L/RS/RA per team, restricts the
  totals to the scraped teams, sorts the leaderboard and slugs the output file name.
- `build_tournament_csv.py` folds one team's game rows into G/W/L/RS/RA. It also resolves the team's
  name and writes one CSV row per roster entry.
- `gc_api_server.py` serves the same tournament CSV. It also derives per-player batting lines:
  singles, total bases, plate appearances, AVG/OBP/SLG/OPS/ISO.
- `scrape_gc_schedules.py` is the first GameChanger scraper. It covers `normalize_text`, `to_int`,
  `clean_name`, schedule-page parsing, box-score row classification, the additive merge of the
  "extra stats" panel into the batting rows, and game-id construction.
- `newsiteshitz/gcscraper/scrape_gc_schedules.py` is the newer scraper. It covers schedule parsing
  with real calendar dates, `parse_int`, and `parse_pitches_strikes`. It also covers batting and
  pitching extraction, whose extra-stat lines *set* counts on the first row with the matched name.
  Its `main` assigns roles, scores, game ids, the TeamMatch flag and column truncation.
- `scrape_gc_tournament.py` contributes `parse_int_safe`, `filter_games_by_tournament` and the
  game id taken from a card's link.
- `server.py` derives `{id, label}` seasons from file names, sorts them, and picks the candidate CSV
  file. It also holds the basic-auth check.

Browser pages, database cursors and the file system become plain input data:

- a schedule is a sequence of month sections holding day rows and event links;
- a box score is a grid of text cells plus extra-stat lines of `(label, tokens)`;
- query results are sequences of rows;
- directory listings and existence tests are parameters.

Shared pieces live in their own modules:

- `Wrappers` holds `Option` and `Result`.
- `Text` models the Python `str` operations the code uses: `strip`, `rstrip`, `lower`, `split`,
  `int()`, `str()`, and the trailing-group regular expressions.
- `Filtering` models list comprehensions with a condition.
- `Sorting` models the stable `list.sort(key=...)`.

Code that loops and appends becomes a `method` with loop invariants, proved equal to a specification
function. The root scraper's in-place merge of the extra stats works on an `array` of rows. Everything
the sources promise is stated about those specification functions as lemmas.

## Model

| member | source | states |
|---|---|---|
| Text.ParsePyInt | scrape_tournament_threat_board.py:153-156 | `int(s)` on text, with the ValueError as None; a value only when the stripped text is not empty (the accepted text is pinned down by the lemmas below) |
| Text.ParsePyIntStripped | scrape_tournament_threat_board.py:150-154 | stripping before `int()` changes nothing, because `int()` strips its argument itself |
| Text.ParsePyIntOfString | scrape_tournament_threat_board.py:154 | `int(str(n)) == n` for every integer |
| Text.ParsePyIntRejects | scrape_tournament_threat_board.py:155-156 | a character other than a sign, a digit or outer whitespace makes `int()` raise |
| Text.ParsePyIntDigits | newsiteshitz/gcscraper/scrape_gc_schedules.py:519 | `int()` of a non-empty digit string is its decimal value |
| Text.JoinSplit | server.py:82-83 | joining the pieces of `s.split(c)` with `c` gives `s` back |
| Text.SplitHasPieces | newsiteshitz/gcscraper/scrape_gc_schedules.py:285-286 | a string splits into more than one piece exactly when it holds the separator |
| Text.WordsAreWords | server.py:83 | every piece of `s.split()` is non-empty and holds no whitespace |
| Text.ContainsAt | scrape_tournament_threat_board.py:275 | the substring test `key in s` holds exactly when `key` occurs at some position of `s` |
| Text.Capitalize | server.py:83 | `w.capitalize()` keeps the length of the word |
| Text.TailMatchesExactly | scrape_gc_schedules.py:324 | `\s+(cs+)$` matches at a position exactly when the text ends in a non-empty run of `cs` and the position lies in the whitespace run just before that run |
| Text.SplitTrailingIsLeftmostMatch | scrape_gc_schedules.py:324 | the split is the leftmost head length at or after `minHead` after which whitespace and a run of `cs` end the text, and None only when there is none: `re.search(r"\s+(\d+)$")` exactly; for the newer scraper's lazy `(.+?)` groups, which cannot cross a newline, BattingToken and PitchingToken add that rule |
| Text.SplitTrailingAfterHead | newsiteshitz/gcscraper/scrape_gc_schedules.py:392 | for "head digits" with a head ending outside whitespace, the split falls between the head and the digits |
| Text.SplitTrailingNone | newsiteshitz/gcscraper/scrape_gc_schedules.py:489-492 | a text whose last character is not a count character has no trailing count and is skipped |
| Text.StripPadded | scrape_tournament_threat_board.py:150 | stripping whitespace around a text that has none at its ends gives that text |
| Text.TrimIdempotent | scrape_tournament_threat_board.py:291 | stripping twice strips once |
| Text.TrimEndAt | newsiteshitz/gcscraper/scrape_gc_schedules.py:323 | `rstrip(cs)` removes exactly the maximal tail of characters in `cs` |
| Text.ZeroPadDigits | newsiteshitz/gcscraper/scrape_gc_schedules.py:258 | zero padding keeps the value of a digit string |
| Filtering.FilterMembers | scrape_tournament_threat_board.py:273-276 | an element is kept by the comprehension exactly when it was given and it passes the condition |
| Filtering.FilterAppend | scrape_tournament_threat_board.py:273-276 | the comprehension works element by element, so it keeps the input order |
| Filtering.FilterAll | scrape_gc_tournament.py:273 | nothing is dropped when every element passes |
| Filtering.FilterNone | scrape_gc_tournament.py:273 | everything is dropped when no element passes |
| Filtering.FilterIdempotent | scrape_gc_tournament.py:273 | filtering twice by one condition filters once |
| Sorting.SortByCorrect | scrape_tournament_threat_board.py:380 | `rows.sort(key=...)` gives an ordered permutation of its input |
| Sorting.SortByStable | server.py:87 | the sort is stable: elements with equal keys keep their input order |
| ThreatBoard.ParseIntSafe | scrape_tournament_threat_board.py:147-156 | `parse_int_safe`: None for None and for blank text; a value only for non-blank text |
| ThreatBoard.ParseIntSafeIsInt | scrape_tournament_threat_board.py:147-156 | for text, the safe parser is `int()` with the ValueError read as None |
| ThreatBoard.ParseIntSafeBlank | scrape_tournament_threat_board.py:150-152 | whitespace-only text gives None |
| ThreatBoard.ParseIntSafeOfString | scrape_tournament_threat_board.py:150-154 | the decimal text of any integer, padded with whitespace, reads back as that integer |
| ThreatBoard.CardScore | scrape_tournament_threat_board.py:212-235 | the status is Final or Scheduled; both scores or neither; scores only when Final; only a win or loss text can raise |
| ThreatBoard.CardScoreOfResult | scrape_tournament_threat_board.py:221-230 | "W a-b" and "L a-b" give a Final game with home score a and away score b |
| ThreatBoard.CardScoreOfPieces | scrape_tournament_threat_board.py:221-230 | a win or loss text whose two dash pieces read as integers gives those scores |
| ThreatBoard.CardScoreWithoutDash | scrape_tournament_threat_board.py:223-225 | a win or loss text whose score word has no '-' raises, so the card is dropped |
| ThreatBoard.CardScoreFinal | scrape_tournament_threat_board.py:231-233 | "Final" gives status Final with no scores |
| ThreatBoard.CardScoreScheduled | scrape_tournament_threat_board.py:234-235 | any text that is neither a result nor "Final" is Scheduled with no scores |
| ThreatBoard.GameIdOfLink | scrape_tournament_threat_board.py:196 | ".../<id>" followed by any number of slashes gives the id |
| ThreatBoard.GameIdOfHref | scrape_tournament_threat_board.py:196 | the game id taken from a link never holds '/' |
| ThreatBoard.TeamName | scrape_tournament_threat_board.py:170-180 | "Unknown Team" when no header is found; the name is always stripped |
| ThreatBoard.CardGame | scrape_tournament_threat_board.py:190-257 | a card yields a game only with a non-empty href, a title and a score text; the schedule team is the home side; no tournament name |
| ThreatBoard.ScrapeScheduleGames | scrape_tournament_threat_board.py:159-260 | the page's team name and its games: the card loop with skipped cards left out |
| ThreatBoard.PageGamesShape | scrape_tournament_threat_board.py:212-253 | at most one game per card; every game has the schedule team at home, Final or Scheduled, and both scores or neither |
| ThreatBoard.FilterGamesForTournament | scrape_tournament_threat_board.py:263-281 | a None or empty filter keeps every game; any filter keeps a subsequence |
| ThreatBoard.FilterMembers | scrape_tournament_threat_board.py:272-276 | with a filter, a game is kept exactly when its non-empty tournament name contains the lower-cased filter, ignoring case |
| ThreatBoard.FilterAppend | scrape_tournament_threat_board.py:273-276 | the filter keeps the input order |
| ThreatBoard.ScrapedGamesFilteredOut | scrape_tournament_threat_board.py:266-268 | scraped games carry no tournament name, so any non-empty filter drops them all |
| ThreatBoard.FilterCaseInsensitive | scrape_tournament_threat_board.py:272 | the filter ignores the case of its text |
| ThreatBoard.NormalizedName | scrape_tournament_threat_board.py:288-297 | `normalize_team_name`: empty input gives ""; the result is never longer |
| ThreatBoard.NormalizeTeamName | scrape_tournament_threat_board.py:288-297 | the prefix loop with its `break` computes NormalizedName |
| ThreatBoard.NormalizedNameDropsPrefix | scrape_tournament_threat_board.py:293-296 | a name starting with "vs. ", "vs " or "@ " in any case loses that one prefix and is stripped |
| ThreatBoard.EarlierPrefixesMiss | scrape_tournament_threat_board.py:293-296 | no prefix listed before the one a name starts with also starts it, so the first match is the one named |
| ThreatBoard.NormalizedNameNoPrefix | scrape_tournament_threat_board.py:291-297 | a name starting with none of the prefixes is only stripped |
| ThreatBoard.TournamentName | scrape_tournament_threat_board.py:66 | an unset or empty TOURNAMENT_NAME becomes "Unnamed Tournament", and the name is stripped |
| ThreatBoard.ReplaceRuns | scrape_tournament_threat_board.py:69 | `[^a-z0-9]+` to '_': the result is made of `[a-z0-9_]`, never holds "__", is empty exactly when the input is, and starts with '_' exactly when the input starts outside `[a-z0-9]` |
| ThreatBoard.SlugShape | scrape_tournament_threat_board.py:69-71 | the slug is non-empty, made of `[a-z0-9_]`, neither starts nor ends with '_', and never holds "__" |
| ThreatBoard.SlugOfPlainName | scrape_tournament_threat_board.py:69-71 | a name already made of lower-case letters and digits is its own slug |
| ThreatBoard.SlugFallback | scrape_tournament_threat_board.py:69-71 | a name with no `[a-z0-9]` once lower-cased (empty, or only punctuation and spaces) gets the slug "tournament" |
| ThreatBoard.OutputCsv | scrape_tournament_threat_board.py:73 | the output file name starts with "tournament_" and ends with ".csv" |
| ThreatBoard.StrippedPieces | scrape_tournament_threat_board.py:64 | every kept piece is non-empty and stripped (which pieces are kept, and in what order, is stated by the three lemmas below) |
| ThreatBoard.StrippedPiecesKeeps | scrape_tournament_threat_board.py:64 | every piece that is not blank once stripped is kept, stripped |
| ThreatBoard.StrippedPiecesOnly | scrape_tournament_threat_board.py:64 | every kept URL is some piece, stripped, and not blank |
| ThreatBoard.StrippedPiecesAppend | scrape_tournament_threat_board.py:64 | the comprehension works piece by piece: the pieces of `a + b` are those of `a` followed by those of `b`, so the order of the URLs is kept |
| ThreatBoard.ScheduleUrls | scrape_tournament_threat_board.py:60-64 | reading TEAM_SCHEDULE_URLS fails exactly when it is blank |
| ThreatBoard.StrippedPiecesNoComma | scrape_tournament_threat_board.py:64 | stripping and dropping blank pieces adds no comma |
| ThreatBoard.ScheduleUrlsShape | scrape_tournament_threat_board.py:60-64 | for a non-blank setting every schedule URL is non-empty, stripped and free of commas |
| ThreatBoardTotals.Ensure | scrape_tournament_threat_board.py:316-318 | `ensure(team)` adds the team with zero totals at the end of the insertion order when it is new; a known team keeps its totals and the order is unchanged; every other team keeps its totals |
| ThreatBoardTotals.BuildTeamTotals | scrape_tournament_threat_board.py:300-350 | the loop over the games computes the totals table TeamTotals |
| ThreatBoardTotals.AddGame | scrape_tournament_threat_board.py:332-348 | the `+=` statements of one counted game credit the home side with its runs for and against, and the away side with the mirrored runs |
| ThreatBoardTotals.GameStepSum | scrape_tournament_threat_board.py:320-348 | a counted game adds both sides' shares to each column total; any other game changes nothing |
| ThreatBoardTotals.TeamTotalsSum | scrape_tournament_threat_board.py:320-348 | every column total of the table is what the counted games add to it |
| ThreatBoardTotals.TeamTotalsBalance | scrape_tournament_threat_board.py:335-348 | total RS equals total RA, total W equals total L, and total G is twice the counted games |
| ThreatBoardTotals.TeamTotalsWithinGames | scrape_tournament_threat_board.py:332-348 | every team has W + L <= G |
| ThreatBoardTotals.TieKeepsRecords | scrape_tournament_threat_board.py:346-348 | a tied game changes no team's wins or losses |
| ThreatBoardTotals.CountedGameAddsOne | scrape_tournament_threat_board.py:326-333 | a counted game between two names adds both to the table, one game each, and leaves other teams alone |
| ThreatBoardTotals.UncountedGamesIgnored | scrape_tournament_threat_board.py:321-324 | dropping the games that are not final or lack a score leaves the totals unchanged |
| ThreatBoardTotals.KeepNames | scrape_tournament_threat_board.py:420-424 | a team is kept exactly when it is in the table and among the scraped names |
| ThreatBoardTotals.Restrict | scrape_tournament_threat_board.py:420-424 | every kept team is a scraped name and keeps its totals |
| ThreatBoardTotals.RestrictValid | scrape_tournament_threat_board.py:420-424 | the restriction is a dictionary again and keeps every team that is in both |
| ThreatBoardTotals.TableRows | scrape_tournament_threat_board.py:358-371 | one row per team of the table, in dictionary order, row i built from team i's totals |
| ThreatBoardTotals.WinPctBounds | scrape_tournament_threat_board.py:376 | with 0 <= W <= G the win percentage lies between 0 and 1, and it is 0 when G is 0 |
| ThreatBoardTotals.RowBeforeOrder | scrape_tournament_threat_board.py:374-380 | comparing sort keys is a strict weak order |
| ThreatBoardTotals.WriteTournamentRows | scrape_tournament_threat_board.py:358-380 | the rows are appended in dictionary order and then sorted: the Leaderboard |
| ThreatBoardTotals.LeaderboardOrdered | scrape_tournament_threat_board.py:374-380 | the leaderboard is a permutation of the rows ordered by descending win%, then RS - RA, then RS |
| ThreatBoardTotals.LeaderboardStable | scrape_tournament_threat_board.py:380 | rows with equal sort keys keep their dictionary order |
| ThreatBoardTotals.RunThreatBoard | scrape_tournament_threat_board.py:406-432 | `main` after login: scrape every page, filter, total, restrict to the schedule teams and sort |
| ThreatBoardTotals.ScrapedNamesFromPages | scrape_tournament_threat_board.py:182-183 | every recorded schedule team is the team name of some page |
| ThreatBoardTotals.BoardTeamsScraped | scrape_tournament_threat_board.py:419-424 | every leaderboard row is a scraped schedule team with a blank pool |
| ThreatBoardTotals.RestrictedRows | scrape_tournament_threat_board.py:420-432 | the leaderboard of the restricted table names only kept teams |
| TournamentCsv.FetchTeamName | build_tournament_csv.py:33-35 | the stored name when non-empty, else the label when non-empty, else the team id |
| TournamentCsv.TeamNameNonEmpty | build_tournament_csv.py:33-35 | a roster entry with a non-empty id always gets a non-empty name |
| TournamentCsv.AggregateTeamStatsById | build_tournament_csv.py:58-84 | the accumulator loop computes the fold Aggregate |
| TournamentCsv.AggregateMeaning | build_tournament_csv.py:60-82 | G is the number of rows, RS and RA the team's and the opponents' runs, W and L the games won and lost, and G = W + L + ties |
| TournamentCsv.AggregateWithinGames | build_tournament_csv.py:78-82 | W and L are non-negative and W + L <= G |
| TournamentCsv.MissingScoresTie | build_tournament_csv.py:65-66 | missing scores count as 0: a row without scores adds a game and is a 0-0 tie |
| TournamentCsv.SidesOfRow | build_tournament_csv.py:69-72 | the team is home exactly when the home id matches, and its runs come from that side |
| TournamentCsv.OutputRows | build_tournament_csv.py:93-114 | one output row per roster entry |
| TournamentCsv.OutputRowsAt | build_tournament_csv.py:93-114 | row i is roster entry i's resolved name, pool and totals, with G the number of its game rows |
| TournamentCsv.BuildTournamentCsv | build_tournament_csv.py:91-118 | the append loop computes OutputRows |
| ApiServer.ApiTournamentCsv | gc_api_server.py:51-76 | the header line, then one line per roster entry as the CSV builder makes it |
| ApiServer.ApiMatchesBuilder | gc_api_server.py:53-72 | the endpoint's lines are the builder's rows: same header, name and pool, and integer cells that read back as its totals |
| ApiServer.CellReadsBack | gc_api_server.py:64-72 | each integer cell reads back as the integer written |
| ApiServer.Singles | gc_api_server.py:143-145 | singles are H - (2B + 3B + HR), clamped at 0 |
| ApiServer.Rate | gc_api_server.py:153-156 | a rate is 0 for a non-positive denominator, otherwise the exact quotient |
| ApiServer.TotalBasesNonNegative | gc_api_server.py:147 | TB >= 0 when the extra-base counts are non-negative |
| ApiServer.TotalBasesOfHits | gc_api_server.py:143-147 | with consistent counts TB = H + 2B + 2·3B + 3·HR |
| ApiServer.TotalBases | gc_api_server.py:143-147 | TB counts at least the bases of the extra-base hits, since singles are clamped at 0 and never subtract |
| ApiServer.DerivedCounts | gc_api_server.py:129-151 | NULL sums read as 0 (including 2B, 3B and HR), TB is TotalBases of H, 2B, 3B and HR, and PA = AB + BB |
| ApiServer.DerivedRates | gc_api_server.py:153-158 | AVG = H/AB, OBP = (H + BB)/PA and SLG = TB/AB, each 0.0 for a zero denominator, OPS = OBP + SLG and ISO = SLG - AVG |
| ApiServer.DerivePlayer | gc_api_server.py:128-158 | the zero-division guards: AB <= 0 gives AVG = SLG = 0.0, PA <= 0 gives OBP = 0.0 |
| ApiServer.NoPlateAppearancesNoRates | gc_api_server.py:153-158 | a player with AB = BB = 0 has every rate 0 |
| ApiServer.RatesBounded | gc_api_server.py:153-158 | with H <= AB, AVG and OBP lie in [0, 1], and ISO >= 0 when the extra-base hits do not outnumber H |
| ApiServer.RateBetween | gc_api_server.py:153 | a rate of a part over its whole lies in [0, 1] |
| ApiServer.RateMonotone | gc_api_server.py:153-156 | a larger numerator never gives a smaller rate |
| ApiServer.PlayersAt | gc_api_server.py:128-179 | line i is the derivation of query row i |
| ApiServer.ApiTeamHitting | gc_api_server.py:93-182 | a missing or blank team id gives the 400 error; otherwise one derived line per query row, in order |
| GcTournament.ParseIntSafe | scrape_gc_tournament.py:170-177 | None and blank text give None; a value only for non-blank text |
| GcTournament.ParseIntSafeIsInt | scrape_gc_tournament.py:170-177 | for text, the parser is `int()` with the ValueError read as None |
| GcTournament.ParseIntSafeBlank | scrape_gc_tournament.py:171-173 | whitespace-only text gives None |
| GcTournament.ParseIntSafeOfString | scrape_gc_tournament.py:171-175 | the decimal text of any integer, padded with whitespace, reads back as that integer |
| GcTournament.ParseIntSafeRejects | scrape_gc_tournament.py:174-177 | a character that is neither a digit nor a sign gives None instead of raising |
| GcTournament.ParseIntSafeAgrees | scrape_gc_tournament.py:170-177 | this `(text or "").strip()` version equals the threat board's explicit None test |
| GcTournament.FilterGamesByTournament | scrape_gc_tournament.py:268-275 | a None or empty filter returns the games unchanged; any filter keeps a subsequence |
| GcTournament.FilterMembers | scrape_gc_tournament.py:272-273 | with a filter, a game is kept exactly when its non-empty tournament name contains the filter, ignoring case |
| GcTournament.FilterAppend | scrape_gc_tournament.py:273 | the filter keeps the input order |
| GcTournament.FilterIdempotent | scrape_gc_tournament.py:268-275 | filtering twice by the same text filters once |
| GcTournament.FilterIgnoresCase | scrape_gc_tournament.py:272 | upper-casing the filter keeps the same games |
| GcTournament.GameIdIsLastSegment | scrape_gc_tournament.py:204 | the id ends the link with its trailing '/' stripped, holds no '/', and a '/' stands just before it unless it is the whole text |
| GcTournament.GameIdOfBareId | scrape_gc_tournament.py:204 | a link without '/' is its own id |
| GcText.CollapseSpaces | scrape_gc_schedules.py:45 | `re.sub(r"\s+", " ", t)` leaves no whitespace (the `str.isspace` set, '\xa0' and the other Unicode spaces included) but single spaces, and is empty only for empty text |
| GcText.NormalizeText | scrape_gc_schedules.py:42-45 | None gives ""; the result has no outer whitespace and no whitespace run longer than one space, whitespace being the `str.isspace` set, Unicode spaces included |
| GcText.NormalizedFixpoint | scrape_gc_schedules.py:42-45 | text that is already normalized comes back unchanged |
| GcText.NormalizeTextIdempotent | scrape_gc_schedules.py:42-45 | `normalize_text` is idempotent |
| GcText.NormalizedJoin | scrape_gc_schedules.py:184-185 | two non-empty normalized texts joined by one space are normalized |
| GcText.ToInt | scrape_gc_schedules.py:48-60 | None gives 0 |
| GcText.ToIntBlank | scrape_gc_schedules.py:51-53 | blank text gives 0 |
| GcText.ToIntDash | scrape_gc_schedules.py:51-53 | the "-" placeholder, with any surrounding whitespace, gives 0 |
| GcText.ToIntAgreesWithInt | scrape_gc_schedules.py:54-55 | whatever `int()` accepts, `to_int` returns unchanged |
| GcText.ToIntOfString | scrape_gc_schedules.py:54-55 | `to_int(str(n)) == n` |
| GcText.ToIntTruncates | scrape_gc_schedules.py:56-58 | "n.frac" gives n: the decimal part is dropped, toward zero (the rounding of `float` to the nearest double is not modelled) |
| GcText.ToIntNonNumeric | scrape_gc_schedules.py:56-60 | text that is neither an integer nor a plain decimal gives 0 and does not raise |
| GcText.DotIsNotInt | scrape_gc_schedules.py:54-58 | text holding '.' is never an integer literal, so decimals reach the `float` branch |
| GcText.BeforeParen | scrape_gc_schedules.py:263 | everything before the first "(", which holds none |
| GcText.DropJerseyNumbers | scrape_gc_schedules.py:265 | after removing every "#<digits>" no '#' is followed by a digit |
| GcText.DropJerseyFixpoint | scrape_gc_schedules.py:265 | text without "#<digit>" is unchanged |
| GcText.NormalizeKeeps | scrape_gc_schedules.py:267 | normalizing whitespace adds no "#<digit>" and no "(" |
| GcText.CleanName | scrape_gc_schedules.py:259-267 | the cleaned name holds no "(", no "#<digit>", and is normalized |
| GcText.CleanNameIdempotent | scrape_gc_schedules.py:259-267 | `clean_name` is idempotent |
| GcSchedulePage.GameUrl | scrape_gc_schedules.py:162-164 | a site-relative href gets "https://web.gc.com" in front; any other href is kept |
| GcSchedulePage.HomeAway | scrape_gc_schedules.py:177-181 | AWAY exactly for "@...", HOME exactly for other titles starting "vs." in any case, "" otherwise |
| GcSchedulePage.DateLabelNormalized | scrape_gc_schedules.py:183-187 | the date label of normalized parts is normalized, and empty only when both parts are |
| GcSchedulePage.ParseSchedulePage | scrape_gc_schedules.py:133-196 | the section, day and event loops compute ScheduleGames |
| GcSchedulePage.ScheduleGamesWellFormed | scrape_gc_schedules.py:157-196 | every entry has a non-empty URL, a normalized date and score, and a flag among "", HOME and AWAY |
| GcSchedulePage.TeamsFor | scrape_gc_schedules.py:641-651 | AWAY gives (OPP, slug); HOME and anything else give (slug, OPP); the flag is upper-cased first |
| GcSchedulePage.GameId | scrape_gc_schedules.py:653 | the game id holds no space, is five characters longer than its three parts, and carries the date's non-space characters in place at its front |
| GcSchedulePage.PlanGame | scrape_gc_schedules.py:640-659 | a space-free id, and a box-score URL "<url>/box-score" exactly when the game has a URL |
| GcSchedulePage.MissingFlagActsAsHome | scrape_gc_schedules.py:648-651 | a game without a flag gets the id of the same home game |
| GcSchedulePage.TeamSlug | scrape_gc_schedules.py:636 | the slug taken from the URL holds no '/' |
| GcSchedulePage.TeamIdFromUrl | scrape_gc_schedules.py:637 | the team id taken from the URL holds no '/' |
| GcBoxScore.AddToField | scrape_gc_schedules.py:337-338 | adding to a field raises that field by the count and leaves every other field and the name alone |
| GcBoxScore.OptIntCell | scrape_gc_schedules.py:428-430 | an optional pitching cell is None exactly when the row is too short |
| GcBoxScore.BattingRowOf | scrape_gc_schedules.py:399-414 | the player name is cell 0, and missing optional columns give 0 |
| GcBoxScore.PitchingRowOf | scrape_gc_schedules.py:419-432 | name and IP text are cells 0 and 1; pitches thrown is None exactly when column 7 is missing, batters faced exactly when column 9 is |
| GcBoxScore.NormalizeCells | scrape_gc_schedules.py:393 | every cell is passed through `normalize_text` |
| GcBoxScore.PitchingNoMoreThanBatting | scrape_gc_schedules.py:398-419 | every pitching line is also a batting line, so there are never more pitching rows |
| GcBoxScore.ParseBoxScore | scrape_gc_schedules.py:385-437 | the row loop computes BattingRows and PitchingRows of the grid |
| GcBoxScore.LabelField | scrape_gc_schedules.py:246-252 | only 2B, 3B, HR, SB and TB map to a field |
| GcBoxScore.DropTrailingComma | scrape_gc_schedules.py:321 | removes at most one trailing comma |
| GcBoxScore.NameAndCount | scrape_gc_schedules.py:323-330 | the name part is stripped |
| GcBoxScore.ParseStatToken | scrape_gc_schedules.py:316-333 | a token that parses has a non-empty, stripped name |
| GcBoxScore.ParseStatTokenCount | scrape_gc_schedules.py:320-327 | "Name n" and "Name n," read back as (Name, n) |
| GcBoxScore.ParseStatTokenDefaultCount | scrape_gc_schedules.py:328-330 | a token without a trailing count has count 1 |
| GcBoxScore.RowKeys | scrape_gc_schedules.py:271-272 | row i's key is its cleaned, lower-cased name |
| GcBoxScore.PositionsExact | scrape_gc_schedules.py:275 | a key's list holds exactly the positions of the rows with that key, each once, in order |
| GcBoxScore.IndexFile | scrape_gc_schedules.py:272-275 | filing the next row keeps the index exact |
| GcBoxScore.BuildCleanedIndex | scrape_gc_schedules.py:270-275 | the loop builds an exact index: every non-empty key maps to the positions of its rows, in order |
| GcBoxScore.GatherDistinct | scrape_gc_schedules.py:288-293 | the fallback scan lists no row twice |
| GcBoxScore.FindRowsMatches | scrape_gc_schedules.py:277-293 | the index lookup returns, without repeats, exactly the rows of the reference match set |
| GcBoxScore.MatchExact | scrape_gc_schedules.py:283-285 | a token whose cleaned key some row has matches exactly the rows with that key |
| GcBoxScore.MatchFallback | scrape_gc_schedules.py:287-293 | any other token matches the rows whose non-empty key contains every token word |
| GcBoxScore.BumpRows | scrape_gc_schedules.py:336-338 | the count is added to the field of exactly the matched rows |
| GcBoxScore.ExtraStatsOnlyAdd | scrape_gc_schedules.py:297-338 | merging keeps every row, its name and its other columns, and never lowers a count |
| GcBoxScore.UnknownLabelsChangeNothing | scrape_gc_schedules.py:308-310 | lines with labels other than 2B, 3B, HR, SB and TB change nothing |
| GcBoxScore.TokenEffect | scrape_gc_schedules.py:335-338 | a token adds its count to the chosen field of exactly the matched rows, and changes nothing else |
| GcBoxScore.FindRowsInRange | scrape_gc_schedules.py:277-293 | the rows the index returns are valid positions, each once |
| GcBoxScore.BumpMeetsToken | scrape_gc_schedules.py:335-338 | bumping the rows the index returns is the token's reference effect |
| GcBoxScore.ApplyStatToken | scrape_gc_schedules.py:316-338 | one token updates the row array in place as ApplyToken says |
| GcBoxScore.ApplyStatTokens | scrape_gc_schedules.py:315-338 | the token loop of one line updates the rows as ApplyTokens says |
| GcBoxScore.ApplyStatLine | scrape_gc_schedules.py:299-338 | one stat line updates the rows as ApplyLine says |
| GcBoxScore.ApplyPanel | scrape_gc_schedules.py:299-338 | one panel updates the rows as ApplyLines says |
| GcBoxScore.ApplyExtraStats | scrape_gc_schedules.py:254-338 | the whole merge updates the row array in place as ExtraStatsApplied says: with no rows nothing changes, otherwise every panel is applied against the keys the rows had on entry |
| NewsiteSchedule.MonthYear | newsiteshitz/gcscraper/scrape_gc_schedules.py:230-234 | a header that strptime accepts gives a year in 1..9999 and a month in 1..12 |
| NewsiteSchedule.MonthNumber | newsiteshitz/gcscraper/scrape_gc_schedules.py:232 | a month word gives a number of at most 12, with 0 standing for a word that names no month |
| NewsiteSchedule.DaysInMonth | newsiteshitz/gcscraper/scrape_gc_schedules.py:254-257 | every month has 28 to 31 days |
| NewsiteSchedule.PaddedReadsBack | newsiteshitz/gcscraper/scrape_gc_schedules.py:258 | a zero-padded number that fits its width has that width and reads back as itself |
| NewsiteSchedule.FormatDateReadsBack | newsiteshitz/gcscraper/scrape_gc_schedules.py:254-258 | a valid date formats as ten characters with dashes at 4 and 7, whose parts read back as year, month and day |
| NewsiteSchedule.HomeAwayFlag | newsiteshitz/gcscraper/scrape_gc_schedules.py:276-280 | HOME exactly for titles starting "vs.", AWAY exactly for other titles starting "@", None otherwise |
| NewsiteSchedule.HomeAwayOfTitle | newsiteshitz/gcscraper/scrape_gc_schedules.py:277-280 | "vs. X" is HOME, "@ X" is AWAY, and "VS. X" is None: the test is case-sensitive |
| NewsiteSchedule.ParseScore | newsiteshitz/gcscraper/scrape_gc_schedules.py:282-292 | both scores or neither; scores only for "W "/"L " texts splitting into exactly two dash pieces, which are those pieces' integers |
| NewsiteSchedule.ParseScoreOfSplit | newsiteshitz/gcscraper/scrape_gc_schedules.py:284-289 | a result whose two pieces read as integers gives those integers |
| NewsiteSchedule.ParseScoreOfResult | newsiteshitz/gcscraper/scrape_gc_schedules.py:284-289 | "W a-b" and "L a-b" read back as our score a and opponent score b |
| NewsiteSchedule.ParseScoreOfTime | newsiteshitz/gcscraper/scrape_gc_schedules.py:282-284 | any text other than a win or loss leaves both scores unset |
| NewsiteSchedule.DayFailureSticks | newsiteshitz/gcscraper/scrape_gc_schedules.py:254-258 | once a day row has raised, the page fails with that error |
| NewsiteSchedule.DayGamesStep | newsiteshitz/gcscraper/scrape_gc_schedules.py:244-258 | the days fail exactly when the earlier rows did or the last one raises |
| NewsiteSchedule.DayGamesFailIff | newsiteshitz/gcscraper/scrape_gc_schedules.py:244-258 | the day rows of one month fail exactly when one of them has a number that parses but is not a day of the month |
| NewsiteSchedule.ParseSchedulePage | newsiteshitz/gcscraper/scrape_gc_schedules.py:214-302 | the header, day and link loops compute ScheduleGames, including the ValueError that escapes |
| NewsiteSchedule.ScheduleGamesWellFormed | newsiteshitz/gcscraper/scrape_gc_schedules.py:254-300 | when the page parses, every game has a ten-character date, a box-score URL that is "https://web.gc.com" followed by a non-empty href, and both scores or neither |
| NewsiteSchedule.ScheduleFailsIff | newsiteshitz/gcscraper/scrape_gc_schedules.py:226-258 | the page fails exactly when some header that parses, and has a section, holds a day row whose number parses but is not a day of that month |
| NewsiteSchedule.NonIntegerDaySkipped | newsiteshitz/gcscraper/scrape_gc_schedules.py:248-252 | a day whose text is not an integer adds nothing |
| NewsiteBoxScore.ParseInt | newsiteshitz/gcscraper/scrape_gc_schedules.py:316-320 | `int(value)` where that succeeds, 0 where it raises |
| NewsiteBoxScore.ParseIntOfString | newsiteshitz/gcscraper/scrape_gc_schedules.py:316-320 | `parse_int(str(n)) == n` |
| NewsiteBoxScore.DigitRun | newsiteshitz/gcscraper/scrape_gc_schedules.py:324 | the maximal run of digits at a position, as `\d+` takes it |
| NewsiteBoxScore.ParsePitchesStrikes | newsiteshitz/gcscraper/scrape_gc_schedules.py:322-327 | both counts or neither, and both non-negative |
| NewsiteBoxScore.PitchPairIff | newsiteshitz/gcscraper/scrape_gc_schedules.py:324-327 | the pattern finds a pair exactly when some digit is directly followed by '-' and a digit |
| NewsiteBoxScore.PairFromRuns | newsiteshitz/gcscraper/scrape_gc_schedules.py:324-326 | a digit run, '-', and a digit run form the pair of those runs' values |
| NewsiteBoxScore.CleanPairText | newsiteshitz/gcscraper/scrape_gc_schedules.py:323 | stripping and dropping trailing commas leave a digit pair text alone |
| NewsiteBoxScore.ParsePitchesStrikesOf | newsiteshitz/gcscraper/scrape_gc_schedules.py:322-327 | "p-s" followed by any commas reads back as (p, s) |
| NewsiteBoxScore.BattingLineOf | newsiteshitz/gcscraper/scrape_gc_schedules.py:337-374 | a row yields a line exactly when it has a name and the stat columns; the name is stripped, AB is column 0, and 2B/3B/HR/SB/TB start at 0 |
| NewsiteBoxScore.PitchingLineOf | newsiteshitz/gcscraper/scrape_gc_schedules.py:438-469 | a row yields a line exactly when it has a name and the stat columns; the name is stripped, IP stays the text of column 0, and the extra counts start as None |
| NewsiteBoxScore.Resolve | newsiteshitz/gcscraper/scrape_gc_schedules.py:400-411 | an exact non-empty name wins; an unlisted name takes the close match only when it is non-empty; a result is never empty, and is a listed name whenever the close matcher proposes listed names |
| NewsiteBoxScore.FirstIndex | newsiteshitz/gcscraper/scrape_gc_schedules.py:414-425 | the first position holding the name, None exactly when none does |
| NewsiteBoxScore.CleanToken | newsiteshitz/gcscraper/scrape_gc_schedules.py:390 | a stripped token without a trailing comma is read as it stands |
| NewsiteBoxScore.BattingTokenWithCount | newsiteshitz/gcscraper/scrape_gc_schedules.py:392-397 | "Name 2" gives the name and the count text |
| NewsiteBoxScore.BattingTokenDefault | newsiteshitz/gcscraper/scrape_gc_schedules.py:392-397 | "Name" without a count gives the count text "1" |
| NewsiteBoxScore.BattingTokenStopsAtNewline | newsiteshitz/gcscraper/scrape_gc_schedules.py:392-395 | a name holding a newline before " <digits>" is dropped, because `(.+?)` does not cross a newline |
| NewsiteBoxScore.BattingTokenNewlineNoCount | newsiteshitz/gcscraper/scrape_gc_schedules.py:392-395 | a token without a count that holds a newline is dropped |
| NewsiteBoxScore.PitchingTokenWithCount | newsiteshitz/gcscraper/scrape_gc_schedules.py:489-494 | "Name 12-8" gives the name and the count text |
| NewsiteBoxScore.PitchingTokenNeedsCount | newsiteshitz/gcscraper/scrape_gc_schedules.py:489-492 | a pitching token without a trailing `[0-9-]+` count is dropped |
| NewsiteBoxScore.PitchingTokenStopsAtNewline | newsiteshitz/gcscraper/scrape_gc_schedules.py:489-492 | a pitching name holding a newline is dropped, because `(.+?)` does not cross a newline |
| NewsiteBoxScore.SetFirstBattingRow | newsiteshitz/gcscraper/scrape_gc_schedules.py:414-425 | the loop with `break` computes SetFirstBatting |
| NewsiteBoxScore.SetFirstBattingEffect | newsiteshitz/gcscraper/scrape_gc_schedules.py:414-425 | only the first row with the name is written; every other row is unchanged |
| NewsiteBoxScore.SetFirstBattingOverwrites | newsiteshitz/gcscraper/scrape_gc_schedules.py:416-424 | counts are set, not added: writing a label again keeps only the later count |
| NewsiteBoxScore.ExtractBatting | newsiteshitz/gcscraper/scrape_gc_schedules.py:330-429 | the row and extra-line loops compute ExtractedBatting |
| NewsiteBoxScore.ExtractedBattingKeepsGrid | newsiteshitz/gcscraper/scrape_gc_schedules.py:355-425 | the extra lines change only 2B/3B/HR; every row keeps its side, and SB and TB stay 0 |
| NewsiteBoxScore.UnknownBattingLabel | newsiteshitz/gcscraper/scrape_gc_schedules.py:416-425 | a label other than 2B, 3B or HR changes no row |
| NewsiteBoxScore.HomeRunWithoutCount | newsiteshitz/gcscraper/scrape_gc_schedules.py:392-423 | "HR: Name" sets one home run on that player's first row |
| NewsiteBoxScore.DoublesWithCount | newsiteshitz/gcscraper/scrape_gc_schedules.py:392-418 | "Name 2" in the 2B line sets the doubles of that player's first row to 2 |
| NewsiteBoxScore.SetFirstPitchingRow | newsiteshitz/gcscraper/scrape_gc_schedules.py:508-527 | the loop with `break` computes SetFirstPitching |
| NewsiteBoxScore.ExtractPitching | newsiteshitz/gcscraper/scrape_gc_schedules.py:431-535 | the row and extra-line loops compute ExtractedPitching |
| NewsiteBoxScore.ExtractedPitchingKeepsGrid | newsiteshitz/gcscraper/scrape_gc_schedules.py:453-527 | the extra lines change only pitches, strikes and batters faced; every pitcher has both pitches and strikes or neither |
| NewsiteBoxScore.UnknownPitchingLabel | newsiteshitz/gcscraper/scrape_gc_schedules.py:508-527 | a label other than Pitches-Strikes, Batters Faced or BF changes no row |
| NewsiteBoxScore.PitchesStrikesOfToken | newsiteshitz/gcscraper/scrape_gc_schedules.py:508-516 | "Name a-b" in the Pitches-Strikes line sets both counts on the first row with the name |
| NewsiteBoxScore.BattersFacedOfToken | newsiteshitz/gcscraper/scrape_gc_schedules.py:517-527 | "BF: Name n" sets n batters faced on the first row with the name |
| NewsiteBoxScore.ParseBoxScore | newsiteshitz/gcscraper/scrape_gc_schedules.py:307-547 | the four tables are the per-side extraction BoxScoreOf, each side carrying its own names and ids |
| NewsiteBoxScore.BoxScoreSides | newsiteshitz/gcscraper/scrape_gc_schedules.py:333-547 | every row carries its side's id, name and flag, with the other side's team name as opponent |
| NewsiteMain.PageTeamId | newsiteshitz/gcscraper/scrape_gc_schedules.py:584 | the page team id holds no '/'; there is none exactly when the URL, its outer slashes removed, has no '/' left, so the index raises |
| NewsiteMain.PageTeamIdOf | newsiteshitz/gcscraper/scrape_gc_schedules.py:584 | ".../teams/<id>/<name>/..." yields the id before the last segment |
| NewsiteMain.GameRecordSides | newsiteshitz/gcscraper/scrape_gc_schedules.py:593-624 | the page team is on exactly one side, HOME exactly when flagged; the other id is empty; the page team's side gets our score |
| NewsiteMain.GameKeySplits | newsiteshitz/gcscraper/scrape_gc_schedules.py:605-606 | with no '_' in its parts, the game id splits back into date, home id and away id |
| NewsiteMain.GameKeyInjective | newsiteshitz/gcscraper/scrape_gc_schedules.py:605-606 | different dates or sides give different game ids |
| NewsiteMain.BattingRecordOf | newsiteshitz/gcscraper/scrape_gc_schedules.py:646-680 | every text column fits its truncation width, team id and player name are prefixes of the scraped text, and TeamMatch is Yes exactly when the row's team is the page team |
| NewsiteMain.PitchingRecordOf | newsiteshitz/gcscraper/scrape_gc_schedules.py:690-720 | every text column fits its width, team id, pitcher name and IP are prefixes of the scraped text, and TeamMatch is Yes exactly for the page team |
| NewsiteMain.InsertBatting | newsiteshitz/gcscraper/scrape_gc_schedules.py:646-685 | the insert loop yields one record per batting row, in order, each as BattingRecordOf makes it |
| NewsiteMain.InsertPitching | newsiteshitz/gcscraper/scrape_gc_schedules.py:690-725 | the insert loop yields one record per pitching row, in order, each as PitchingRecordOf makes it |
| NewsiteMain.TeamMatchBySide | newsiteshitz/gcscraper/scrape_gc_schedules.py:598-653 | the page team's batting rows are flagged Yes and the opponent's No |
| NewsiteMain.PitchingTeamMatchBySide | newsiteshitz/gcscraper/scrape_gc_schedules.py:598-695 | the page team's pitching rows are flagged Yes and the opponent's No |
| NewsiteMain.TeamRunGames | newsiteshitz/gcscraper/scrape_gc_schedules.py:589-629 | one games record per game with a box-score URL, whatever happens to its box score |
| NewsiteMain.WellFormedGamesAllKept | newsiteshitz/gcscraper/scrape_gc_schedules.py:589-591 | every game the schedule parser yields has a URL, so none is skipped |
| NewsiteMain.ProcessGames | newsiteshitz/gcscraper/scrape_gc_schedules.py:589-733 | the game loop computes TeamRunOf |
| SiteServer.SeasonId | server.py:74-80 | the id is never longer than the file name without its extension |
| SiteServer.CsvNameOf | server.py:71-74 | a name ending in ".csv" in any case is listed, and dropping four characters gives the part before the extension |
| SiteServer.SeasonIdOfPrefixed | server.py:76-78 | "<prefix><id>.csv" has season id `id` |
| SiteServer.SeasonIdOfPlain | server.py:79-80 | "<id>.csv" for an id without the prefix has season id `id` |
| SiteServer.SeasonIdDoublePrefix | server.py:77-78 | only one prefix is removed |
| SiteServer.Spaced | server.py:82 | no '-' or '_' is left |
| SiteServer.LabelOfOneWord | server.py:82-83 | a one-word id is labelled with that word capitalized ("fall2024" gives "Fall2024") |
| SiteServer.CapitalizedWord | server.py:83 | a capitalized word stays free of whitespace, '-' and '_' |
| SiteServer.SpacedWords | server.py:82-83 | the words of the spaced id are non-empty and hold no whitespace, '-' or '_' |
| SiteServer.JoinWords | server.py:83 | words joined by single spaces are normalized and add no '-' or '_' |
| SiteServer.SplitJoin | server.py:83 | splitting on a character no part holds undoes joining with it |
| SiteServer.LabelShape | server.py:82-83 | the label is normalized, has no '-' or '_', is empty only when the id has no word, and every word is capitalized |
| SiteServer.LabelWords | server.py:82-83 | the label's words are `w.capitalize()` of the id's words, in order |
| SiteServer.ListSeasons | server.py:61-88 | the listing loop computes Seasons |
| SiteServer.SeasonBeforeOrder | server.py:87 | ordering by label is a strict weak order |
| SiteServer.SeasonsSorted | server.py:85-87 | the list is ordered by label and holds exactly the seasons of the CSV names, with multiplicity |
| SiteServer.SeasonsStable | server.py:87 | seasons with equal labels keep their listing order |
| SiteServer.CollectedMembers | server.py:70-85 | a season is collected exactly when some listed name is a CSV name giving it |
| SiteServer.SeasonsListed | server.py:66-88 | in an existing folder, a season is listed exactly when it comes from a CSV name |
| SiteServer.FindCsv | server.py:121-135 | the first existing candidate is sent; with none, 404 |
| SiteServer.FirstExistingMeaning | server.py:126-133 | the chosen name is a listed name that exists, no earlier name exists, and there is none only when no name exists |
| SiteServer.CsvChoice | server.py:188-202 | the prefixed file wins when it exists; the plain one is used only when the prefixed one is missing; neither gives 404 |
| SiteServer.AuthorizedMeaning | server.py:34-56 | access needs both the configured user and the configured password, and no credentials give no access |
| SiteServer.AuthDefaults | server.py:30-36 | with no variables set, exactly coach / changeme gets in; a different ACES_USER refuses the default user |

## Left out

- Selenium, BeautifulSoup, pyodbc and Flask are not modelled. Browser login, navigation, scrolling and
  waits are left out. Element selection is replaced by input datatypes. Table creation, inserts, TRUNCATE
  and the SQL `SUM ... GROUP BY` are left out: the query results are parameters. The dynamic-column
  `insert_game_and_stats` of `scrape_gc_schedules.py` is not part of this model.
- Writes to CSV and debug-HTML files, `print` logging and `.env` loading are left out. CSV quoting is not
  modelled: a CSV line is its sequence of cells.
- Swallowed database `IntegrityError`s leave no trace in the model. The newer scraper's game rows are the
  records it tries to insert.
- Flask routing, the `requires_auth` decorator and `send_from_directory` are left out: `Authorized` states
  the decorator's test. `os.path.isdir`, `os.listdir` and `os.path.exists` are parameters.
- `difflib.get_close_matches` is a parameter. It returns any candidate or nothing; the Ratcliff/Obershelp
  ratio is not modelled.
- `round(x, 3)` and floating point: the rate statistics are exact `real` quotients.
- `to_int` reads plain decimals "[+-]digits.digits" through `float`. It does not model exponents ("1e3") or
  digit underscores, which Python accepts. The model gives 0 for those, as for "inf" and "nan".
- GcText.ToInt: `int(float(v))` first rounds the decimal to the nearest double and then truncates. The
  model truncates the exact decimal, so it differs where rounding crosses an integer ("0.99999999999999999"
  is 1 in Python, 0 here) and for integers beyond 2^53, which a double cannot hold.
- Whitespace is the 29 characters of Python's `str.isspace()`, which `\s`, `split()`, `strip()` and `int()`
  use. Unicode decimal digits other than '0'-'9' are left out:
- Text.ParsePyInt: accepts only the ASCII digits, where Python's `int()` also takes other Unicode decimal
  digits and underscore grouping.
- Text.SplitTrailing: the count runs `\d+` and `[0-9\-]+` take only ASCII digits; Python's `\d` also
  matches other Unicode decimal digits.
- NewsiteBoxScore.DigitRun: `\d+` is read as a run of ASCII digits only.
- GcText.DropJerseyNumbers: `#\d+` removes '#' followed by ASCII digits only.
- `lower`, `upper` and `capitalize` act on ASCII letters only.
- `datetime.strptime("%B %Y")` accepts a full English month name in any case, whitespace, and four digits.
  Locales, abbreviated names and other spacing rules are left out.
- `strftime("%Y")` is modelled as a four-digit zero pad. The C library does not pad years below 1000.
- The `$` of the newer scraper's token regexes also matches before a final newline. The model treats `$` as
  the end of the text, which matters only for a token ending in a newline followed by commas.
- `list.sort` is modelled on values by a stable sort function: in-place aliasing of the list is not
  modelled.
- The global `SCRAPED_TEAM_NAMES` is modelled as the set of team names of the scraped pages.
- The Selenium card loop of `scrape_gc_tournament.py` is left out, apart from its game-id rule.
- `server.py`'s docstrings show the label "Fall 2024" for "fall2024". The code capitalizes whole words and
  gives "Fall2024". The model follows the code (`SiteServer.LabelOfOneWord`).
- `gc_boxscore_test.py`, `test_sql.py` and `presidents_day_teams.py` are not part of this model. They are a
  live-browser script, a database connectivity check and static roster data.
