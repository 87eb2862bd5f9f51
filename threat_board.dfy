/**
  * The tournament threat board's reading of team schedule pages: the integer parser, the
  * score text of a schedule card, the game id of a card's link, the tournament filter,
  * the team-name normalisation used when totalling, and the configuration values derived
  * from the environment (the output file's slug, the schedule URL list).
  */
module ThreatBoard {
  import opened Wrappers
  import opened Text
  import opened Filtering

  /** A game read off a schedule page.  The schedule team is always the home side. */
  datatype Game = Game(
    gameId: string,
    tournamentName: Option<string>,
    status: string,
    homeTeam: string,
    awayTeam: string,
    homeScore: Option<int>,
    awayScore: Option<int>)

  /** What a schedule event link offers: its href, the opponent title text and the score or
      time text.  None stands for an attribute or element that is not there. */
  datatype ScheduleCard = ScheduleCard(href: Option<string>, title: Option<string>, scoreText: Option<string>)

  /** A schedule page: the team-name header text (None when it never appears) and the event links. */
  datatype SchedulePage = SchedulePage(header: Option<string>, cards: seq<ScheduleCard>)

  // ---------------------------------------------------------------------------
  // parse_int_safe

  /** `parse_int_safe(text)`: None for None or blank text, otherwise `int(text)` where that
      does not raise. */
  function ParseIntSafe(text: Option<string>): (r: Option<int>)
    ensures r.Some? ==> text.Some? && Strip(text.value) != []
  {
    match text
    case None => None
    case Some(t) =>
      var s := Strip(t);
      if s == [] then None else ParsePyInt(s)
  }

  /** Apart from None, the safe parser agrees with `int()`, reading a raise as None. */
  lemma ParseIntSafeIsInt(s: string)
    ensures ParseIntSafe(Some(s)) == ParsePyInt(s)
  {
    ParsePyIntStripped(s);
  }

  /** Whitespace-only text gives None. */
  lemma ParseIntSafeBlank(s: string)
    requires AllIn(s, WhiteSpace)
    ensures ParseIntSafe(Some(s)) == None
  {
    TrimEndPastTail([], s, WhiteSpace);
    assert [] + s == s;
  }

  /** The decimal text of an integer, with any surrounding whitespace, reads back as that integer. */
  lemma ParseIntSafeOfString(n: int, pre: string, post: string)
    requires AllIn(pre, WhiteSpace) && AllIn(post, WhiteSpace)
    ensures ParseIntSafe(Some(pre + IntToString(n) + post)) == Some(n)
  {
    var d := IntToString(n);
    StripPadded(pre, d, post);
    ParseIntSafeIsInt(pre + d + post);
    ParsePyIntStripped(d);
    ParsePyIntOfString(n);
  }

  // ---------------------------------------------------------------------------
  // a schedule card

  /** The score rule of a card: "W a-b" or "L a-b" is a final game with home score a and away
      score b (the schedule team's runs first, whichever the letter); "Final" is final with no
      score; anything else is scheduled.  None is a win or loss text whose score piece has no
      '-' or does not hold two integers, where the source raises and drops the card. */
  function CardScore(s: string): (r: Option<(string, Option<int>, Option<int>)>)
    ensures r.Some? ==> (r.value.1.Some? <==> r.value.2.Some?)
    ensures r.Some? && r.value.1.Some? ==> r.value.0 == "Final"
    ensures r.None? ==> StartsWith(s, "W ") || StartsWith(s, "L ")
    ensures r.Some? ==> r.value.0 == "Final" || r.value.0 == "Scheduled"
  {
    if StartsWith(s, "W ") || StartsWith(s, "L ") then
      assert s[1] == ' ';
      SplitHasPieces(s, ' ');
      var parts := Split(Split(s, ' ')[1], '-');
      if |parts| < 2 then None
      else
        match (ParsePyInt(parts[0]), ParsePyInt(parts[1]))
        case (Some(h), Some(a)) => Some(("Final", Some(h), Some(a)))
        case _ => None
    else if s == "Final" then Some(("Final", None, None))
    else Some(("Scheduled", None, None))
  }

  /** The second space-separated word of a result text is its score piece. */
  lemma ResultWords(letter: char, piece: string)
    requires letter != ' ' && ' ' !in piece
    ensures Split([letter, ' '] + piece, ' ') == [[letter], piece]
  {
    assert [letter, ' '] + piece == [letter] + [' '] + piece;
    SplitAtSeparator([letter], piece, ' ');
    SplitWithoutSeparator(piece, ' ');
  }

  /** The text the site shows for a finished game reads back as its two scores. */
  lemma CardScoreOfResult(won: bool, home: nat, away: nat)
    ensures CardScore((if won then "W " else "L ") + NatToString(home) + "-" + NatToString(away))
      == Some(("Final", Some(home as int), Some(away as int)))
  {
    var a := NatToString(home);
    var b := NatToString(away);
    ParsePyIntOfString(home);
    ParsePyIntOfString(away);
    var letter := if won then 'W' else 'L';
    assert ' ' in WhiteSpace;
    CardScoreOfPieces(letter, a, b, home, away);
    var p := if won then "W " else "L ";
    assert p == [letter, ' '];
    Regroup(p, a, "-", b);
  }

  lemma Regroup(p: string, a: string, d: string, b: string)
    ensures p + a + d + b == p + (a + d + b)
  {
  }

  /** "W a-b" or "L a-b" whose pieces read as integers gives a final game with those scores. */
  lemma CardScoreOfPieces(letter: char, a: string, b: string, x: int, y: int)
    requires letter == 'W' || letter == 'L'
    requires ' ' !in a && ' ' !in b && '-' !in a && '-' !in b
    requires ParsePyInt(a) == Some(x) && ParsePyInt(b) == Some(y)
    ensures CardScore([letter, ' '] + (a + "-" + b)) == Some(("Final", Some(x), Some(y)))
  {
    var piece := a + "-" + b;
    DashJoin(a, b);
    ResultWords(letter, piece);
    var s := [letter, ' '] + piece;
    assert s[..2] == [letter, ' '];
  }

  lemma DashJoin(a: string, b: string)
    requires '-' !in a && '-' !in b
    ensures Split(a + "-" + b, '-') == [a, b]
    ensures ' ' !in a && ' ' !in b ==> ' ' !in a + "-" + b
  {
    assert a + "-" + b == a + ['-'] + b;
    SplitAtSeparator(a, b, '-');
    SplitWithoutSeparator(b, '-');
  }

  /** A win or loss text with no '-' in its single score word drops the card. */
  lemma CardScoreWithoutDash(won: bool, piece: string)
    requires ' ' !in piece && '-' !in piece
    ensures CardScore((if won then "W " else "L ") + piece) == None
  {
    var letter := if won then 'W' else 'L';
    assert (if won then "W " else "L ") + piece == [letter, ' '] + piece;
    ResultWords(letter, piece);
    SplitWithoutSeparator(piece, '-');
  }

  lemma CardScoreFinal()
    ensures CardScore("Final") == Some(("Final", None, None))
  {
    assert "Final"[1] != ' ';
  }

  /** A start time, or any text that is neither a result nor "Final", is a scheduled game. */
  lemma CardScoreScheduled(s: string)
    requires !StartsWith(s, "W ") && !StartsWith(s, "L ") && s != "Final"
    ensures CardScore(s) == Some(("Scheduled", None, None))
  {
  }

  /** `href.rstrip("/").split("/")[-1]`. */
  function GameIdOfHref(href: string): (r: string)
    ensures '/' !in r
  {
    LastPiece(TrimEnd(href, {'/'}), '/')
  }

  /** ".../game-<id>/" gives the id, with or without trailing slashes. */
  lemma GameIdOfLink(prefix: string, id: string, slashes: string)
    requires '/' !in id && id != [] && AllIn(slashes, {'/'})
    ensures GameIdOfHref(prefix + "/" + id + slashes) == id
  {
    var body := prefix + "/" + id;
    TrimEndPastTail(body, slashes, {'/'});
    assert body[|body| - 1] == id[|id| - 1];
    assert TrimEnd(body, {'/'}) == body;
    assert body == prefix + ['/'] + id;
    SplitConcat(prefix, id, '/');
    SplitWithoutSeparator(id, '/');
  }

  /** The header's stripped text, or "Unknown Team" when the header never appears. */
  function TeamName(header: Option<string>): (r: string)
    ensures header.None? ==> r == "Unknown Team"
    ensures Trimmed(r, WhiteSpace)
  {
    match header
    case None => "Unknown Team"
    case Some(t) => Strip(t)
  }

  /** The game a card yields for the schedule team, or None where the source skips the card:
      a missing or empty href, a missing title or score element, or a score that raises. */
  function CardGame(team: string, c: ScheduleCard): (r: Option<Game>)
    ensures r.Some? ==> c.href.Some? && c.href.value != [] && c.title.Some? && c.scoreText.Some?
    ensures r.Some? ==> r.value.homeTeam == team && r.value.tournamentName.None?
  {
    match (c.href, c.title, c.scoreText)
    case (Some(href), Some(title), Some(text)) =>
      if href == [] then None
      else
        (match CardScore(Strip(text))
         case None => None
         case Some((status, home, away)) =>
           Some(Game(GameIdOfHref(href), None, status, team, Strip(title), home, away)))
    case _ => None
  }

  /** The games of a page's cards for the schedule team, in card order. */
  function PageGames(team: string, cards: seq<ScheduleCard>): seq<Game>
  {
    if cards == [] then []
    else
      var g := CardGame(team, cards[|cards| - 1]);
      PageGames(team, cards[..|cards| - 1]) + (if g.Some? then [g.value] else [])
  }

  /** `scrape_schedule_games` on a loaded page: the schedule team's name and its games. */
  method ScrapeScheduleGames(page: SchedulePage) returns (team: string, games: seq<Game>)
    ensures team == TeamName(page.header)
    ensures games == PageGames(team, page.cards)
  {
    team := TeamName(page.header);
    games := [];
    for i := 0 to |page.cards|
      invariant games == PageGames(team, page.cards[..i])
    {
      PageGamesStep(team, page.cards, i);
      var g := CardGame(team, page.cards[i]);
      if g.Some? {
        games := games + [g.value];
      }
    }
    assert page.cards[..|page.cards|] == page.cards;
  }

  lemma PageGamesStep(team: string, cards: seq<ScheduleCard>, i: nat)
    requires i < |cards|
    ensures var g := CardGame(team, cards[i]);
      PageGames(team, cards[..i + 1]) == PageGames(team, cards[..i]) + (if g.Some? then [g.value] else [])
  {
    assert cards[..i + 1][..i] == cards[..i];
    assert cards[..i + 1][i] == cards[i];
  }

  /** What every scraped game looks like. */
  predicate ScrapedShape(team: string, g: Game)
  {
    && g.homeTeam == team
    && g.tournamentName.None?
    && (g.status == "Final" || g.status == "Scheduled")
    && (g.homeScore.Some? <==> g.awayScore.Some?)
    && (g.homeScore.Some? ==> g.status == "Final")
    && '/' !in g.gameId
  }

  /** Every game of a page has the schedule team at home, no tournament name, a status of
      "Final" or "Scheduled", both scores or neither and a score only when final. */
  lemma {:induction false} PageGamesShape(team: string, cards: seq<ScheduleCard>)
    ensures |PageGames(team, cards)| <= |cards|
    ensures forall k :: 0 <= k < |PageGames(team, cards)| ==> ScrapedShape(team, PageGames(team, cards)[k])
  {
    if cards != [] {
      PageGamesShape(team, cards[..|cards| - 1]);
      CardGameShape(team, cards[|cards| - 1]);
    }
  }

  lemma CardGameShape(team: string, c: ScheduleCard)
    ensures CardGame(team, c).Some? ==> ScrapedShape(team, CardGame(team, c).value)
  {
    if CardGame(team, c).Some? {
      var text := Strip(c.scoreText.value);
      assert CardScore(text).Some?;
    }
  }

  // ---------------------------------------------------------------------------
  // filter_games_for_tournament

  /** The comprehension's condition: a non-empty tournament name containing the key.  */
  predicate InTournament(g: Game, key: string)
  {
    g.tournamentName.Some? && g.tournamentName.value != [] && Contains(ToLower(g.tournamentName.value), key)
  }

  /** The condition as a value, for the comprehension. */
  function InTournamentOf(key: string): Game -> bool
  {
    g => InTournament(g, key)
  }

  /** `filter_games_for_tournament`: everything for a None or empty filter, otherwise the
      games whose tournament name contains the lower-cased filter, case-insensitively. */
  function FilterGamesForTournament(games: seq<Game>, filter: Option<string>): (r: seq<Game>)
    ensures filter.None? || filter.value == [] ==> r == games
    ensures |r| <= |games|
  {
    if filter.None? || filter.value == [] then games else Filter(games, InTournamentOf(ToLower(filter.value)))
  }

  /** With a non-empty filter, a game is kept exactly when it was given and its non-empty
      tournament name contains the lower-cased filter. */
  lemma FilterMembers(games: seq<Game>, filter: string, g: Game)
    requires filter != []
    ensures g in FilterGamesForTournament(games, Some(filter)) <==> g in games && InTournament(g, ToLower(filter))
  {
    Filtering.FilterMembers(games, InTournamentOf(ToLower(filter)), g);
  }

  /** The filter keeps the input order: it works piece by piece. */
  lemma FilterAppend(a: seq<Game>, b: seq<Game>, filter: Option<string>)
    ensures FilterGamesForTournament(a + b, filter) ==
            FilterGamesForTournament(a, filter) + FilterGamesForTournament(b, filter)
  {
    if filter.Some? && filter.value != [] {
      Filtering.FilterAppend(a, b, InTournamentOf(ToLower(filter.value)));
    }
  }

  /** Games without a tournament name never pass a non-empty filter; the names are not yet
      scraped, so such a filter drops every scraped game. */
  lemma ScrapedGamesFilteredOut(team: string, cards: seq<ScheduleCard>, filter: string)
    requires filter != []
    ensures FilterGamesForTournament(PageGames(team, cards), Some(filter)) == []
  {
    var gs := PageGames(team, cards);
    PageGamesShape(team, cards);
    FilterNone(gs, InTournamentOf(ToLower(filter)));
  }

  lemma LowerUpper(s: string)
    ensures ToLower(ToUpper(s)) == ToLower(s)
    ensures ToLower(ToLower(s)) == ToLower(s)
  {
  }

  /** The filter ignores the case of its text. */
  lemma FilterCaseInsensitive(games: seq<Game>, filter: string)
    ensures FilterGamesForTournament(games, Some(ToUpper(filter))) == FilterGamesForTournament(games, Some(filter))
    ensures FilterGamesForTournament(games, Some(ToLower(filter))) == FilterGamesForTournament(games, Some(filter))
  {
    LowerUpper(filter);
  }

  // ---------------------------------------------------------------------------
  // normalize_team_name

  const NamePrefixes: seq<string> := ["vs. ", "vs ", "@ "]

  /** `normalize_team_name`: "" for an empty name; otherwise the stripped name with the
      first of "vs. ", "vs ", "@ " that starts it, in any case, removed and the rest
      stripped again. */
  function NormalizedName(name: string): (r: string)
    ensures name == [] ==> r == []
    ensures |r| <= |name|
  {
    if name == [] then [] else DropFirstPrefix(Strip(name), 0)
  }

  /** `n` with the first of the prefixes from index `k` on that starts its lower-case form
      removed and the rest stripped; `n` itself when none does. */
  function DropFirstPrefix(n: string, k: nat): (r: string)
    requires k <= |NamePrefixes|
    ensures |r| <= |n|
    decreases |NamePrefixes| - k
  {
    if k == |NamePrefixes| then n
    else if StartsWith(ToLower(n), NamePrefixes[k]) then Strip(n[|NamePrefixes[k]|..])
    else DropFirstPrefix(n, k + 1)
  }

  /** The source's loop over the prefixes, leaving it at the first that matches. */
  method NormalizeTeamName(name: string) returns (n: string)
    ensures n == NormalizedName(name)
  {
    if name == [] {
      return [];
    }
    n := Strip(name);
    var lower := ToLower(n);
    var i := 0;
    while i < |NamePrefixes|
      invariant 0 <= i <= |NamePrefixes|
      invariant n == Strip(name) && lower == ToLower(n)
      invariant DropFirstPrefix(n, i) == NormalizedName(name)
    {
      var prefix := NamePrefixes[i];
      if StartsWith(lower, prefix) {
        n := Strip(n[|prefix|..]);
        break;
      }
      i := i + 1;
    }
  }

  /** Right-stripping text that has a non-whitespace character keeps whatever comes before it. */
  lemma {:induction false} TrimEndKeepsHead(a: string, b: string, cs: set<char>)
    requires TrimEnd(b, cs) != []
    ensures TrimEnd(a + b, cs) == a + TrimEnd(b, cs)
    decreases |b|
  {
    var b' := b[..|b| - 1];
    assert (a + b)[..|a + b| - 1] == a + b';
    if b[|b| - 1] in cs {
      TrimEndKeepsHead(a, b', cs);
    }
  }

  lemma TrimEndIdempotent(s: string, cs: set<char>)
    ensures TrimEnd(TrimEnd(s, cs), cs) == TrimEnd(s, cs)
  {
    var t := TrimEnd(s, cs);
    assert t == [] || t[|t| - 1] !in cs;
  }

  /** A name written "<prefix><rest>", the prefix in any case and the rest not blank, is
      normalised to the stripped rest: only that one prefix is removed, even if the rest
      starts with another. */
  lemma NormalizedNameDropsPrefix(p: string, rest: string)
    requires ToLower(p) in NamePrefixes
    requires Strip(rest) != []
    ensures NormalizedName(p + rest) == Strip(rest)
  {
    var j := if ToLower(p) == NamePrefixes[0] then 0 else if ToLower(p) == NamePrefixes[1] then 1 else 2;
    DropsPrefixAt(p, rest, j);
  }

  lemma DropsPrefixAt(p: string, rest: string, j: nat)
    requires j < |NamePrefixes| && ToLower(p) == NamePrefixes[j]
    requires Strip(rest) != []
    ensures NormalizedName(p + rest) == Strip(rest)
  {
    var x := TrimEnd(rest, WhiteSpace);
    PrefixHeads(j);
    PrefixStartsOutsideSpace(p, NamePrefixes[j]);
    StripPrefixed(p, rest);
    LowerPrefix(p, x);
    EarlierPrefixesMiss(ToLower(p + x), j);
    FirstPrefixDropped(p + x, j);
    assert (p + x)[|p|..] == x;
    TrimEndIdempotent(rest, WhiteSpace);
  }

  /** Each prefix starts with 'v' or '@'. */
  lemma PrefixHeads(j: nat)
    requires j < |NamePrefixes|
    ensures NamePrefixes[j] != [] && (NamePrefixes[j][0] == 'v' || NamePrefixes[j][0] == '@')
  {
  }

  /** Text whose lower-case form starts with 'v' or '@' does not start with whitespace. */
  lemma PrefixStartsOutsideSpace(p: string, q: string)
    requires ToLower(p) == q && q != [] && (q[0] == 'v' || q[0] == '@')
    ensures p != [] && p[0] !in WhiteSpace
  {
    assert LowerChar(p[0]) == q[0];
    WhiteSpaceChar(p[0]);
  }

  /** Stripping "<p><rest>" with `p` starting outside whitespace keeps `p` whole. */
  lemma StripPrefixed(p: string, rest: string)
    requires p != [] && p[0] !in WhiteSpace && Strip(rest) != []
    ensures Strip(p + rest) == p + TrimEnd(rest, WhiteSpace)
  {
    TrimEndKeepsHead(p, rest, WhiteSpace);
    var n := p + TrimEnd(rest, WhiteSpace);
    assert n[0] == p[0];
  }

  lemma LowerPrefix(p: string, x: string)
    ensures StartsWith(ToLower(p + x), ToLower(p))
  {
    assert ToLower(p + x)[..|p|] == ToLower(p);
  }

  /** No prefix listed before the one a name starts with also starts it. */
  lemma EarlierPrefixesMiss(lower: string, j: nat)
    requires j < |NamePrefixes| && StartsWith(lower, NamePrefixes[j])
    ensures forall k :: 0 <= k < j ==> !StartsWith(lower, NamePrefixes[k])
  {
    if j == 1 {
      assert lower[2] == ' ';
    } else if j == 2 {
      assert lower[0] == '@';
    }
  }

  lemma FirstPrefixDropped(n: string, j: nat)
    requires j < |NamePrefixes| && StartsWith(ToLower(n), NamePrefixes[j])
    requires forall k :: 0 <= k < j ==> !StartsWith(ToLower(n), NamePrefixes[k])
    ensures DropFirstPrefix(n, 0) == Strip(n[|NamePrefixes[j]|..])
  {
    if j >= 1 {
      assert DropFirstPrefix(n, 0) == DropFirstPrefix(n, 1);
    }
    if j == 2 {
      assert DropFirstPrefix(n, 1) == DropFirstPrefix(n, 2);
    }
  }

  /** A name that starts with none of the prefixes is only stripped. */
  lemma NormalizedNameNoPrefix(name: string)
    requires name != []
    requires forall k :: 0 <= k < |NamePrefixes| ==> !StartsWith(ToLower(Strip(name)), NamePrefixes[k])
    ensures NormalizedName(name) == Strip(name)
  {
    assert !StartsWith(ToLower(Strip(name)), NamePrefixes[0]);
    assert !StartsWith(ToLower(Strip(name)), NamePrefixes[1]);
    assert !StartsWith(ToLower(Strip(name)), NamePrefixes[2]);
  }

  // ---------------------------------------------------------------------------
  // configuration

  /** `(TOURNAMENT_NAME or "Unnamed Tournament").strip()`. */
  function TournamentName(env: Option<string>): (r: string)
    ensures env.None? || env.value == [] ==> r == "Unnamed Tournament"
    ensures env.Some? && env.value != [] ==> r == Strip(env.value)
  {
    if env.None? || env.value == [] then "Unnamed Tournament" else Strip(env.value)
  }

  predicate SlugChar(c: char)
  {
    'a' <= c <= 'z' || '0' <= c <= '9'
  }

  /** The text after a leading run of characters outside `[a-z0-9]`. */
  function SkipRun(s: string): (r: string)
    ensures |r| <= |s| && r == s[|s| - |r|..]
    ensures r == [] || SlugChar(r[0])
  {
    if s != [] && !SlugChar(s[0]) then
      var r := SkipRun(s[1..]);
      assert s[1..][|s| - 1 - |r|..] == s[|s| - |r|..];
      r
    else s
  }

  /** `re.sub(r"[^a-z0-9]+", "_", s)`: each maximal run of other characters becomes one '_'. */
  function ReplaceRuns(s: string): (r: string)
    ensures forall i :: 0 <= i < |r| ==> SlugChar(r[i]) || r[i] == '_'
    ensures forall i :: 0 <= i < |r| - 1 ==> !(r[i] == '_' && r[i + 1] == '_')
    ensures r != [] <==> s != []
    ensures r != [] ==> (r[0] == '_' <==> !SlugChar(s[0]))
    decreases |s|
  {
    if s == [] then []
    else if SlugChar(s[0]) then [s[0]] + ReplaceRuns(s[1..])
    else "_" + ReplaceRuns(SkipRun(s[1..]))
  }

  /** The output file's slug: the lower-cased name with runs replaced, stripped of '_',
      and "tournament" when nothing is left. */
  function Slug(name: string): (r: string)
  {
    var t := Trim(ReplaceRuns(ToLower(name)), {'_'});
    if t == [] then "tournament" else t
  }

  /** `tournament_<slug>.csv`. */
  function OutputCsv(name: string): (r: string)
    ensures StartsWith(r, "tournament_") && EndsWith(r, ".csv")
  {
    "tournament_" + Slug(name) + ".csv"
  }

  /** Made of `[a-z0-9_]` with no two '_' in a row. */
  predicate RunsReplaced(s: string)
  {
    && (forall i :: 0 <= i < |s| ==> SlugChar(s[i]) || s[i] == '_')
    && (forall i :: 0 <= i < |s| - 1 ==> !(s[i] == '_' && s[i + 1] == '_'))
  }

  /** A slice keeps both properties. */
  lemma SliceOfRuns(s: string, lo: nat, hi: nat)
    requires lo <= hi <= |s| && RunsReplaced(s)
    ensures RunsReplaced(s[lo..hi])
  {
    var u := s[lo..hi];
    assert forall i :: 0 <= i < |u| ==> u[i] == s[lo + i];
  }

  /** Stripping '_' keeps both properties and leaves no '_' at either end. */
  lemma TrimRuns(s: string)
    requires RunsReplaced(s)
    ensures RunsReplaced(Trim(s, {'_'}))
  {
    var e := TrimEnd(s, {'_'});
    SliceOfRuns(s, 0, |e|);
    assert e == s[0..|e|];
    var t := TrimStart(e, {'_'});
    SliceOfRuns(e, |e| - |t|, |e|);
    assert t == e[|e| - |t|..|e|];
  }

  lemma FallbackSlugShaped()
    ensures RunsReplaced("tournament")
  {
  }

  /** The slug is non-empty, made of `[a-z0-9_]`, neither starts nor ends with '_' and never
      holds two '_' in a row. */
  lemma SlugShape(name: string)
    ensures var r := Slug(name); r != [] && RunsReplaced(r) && r[0] != '_' && r[|r| - 1] != '_'
  {
    var s := ReplaceRuns(ToLower(name));
    assert RunsReplaced(s);
    TrimmedSlugShape(s);
  }

  lemma TrimmedSlugShape(s: string)
    requires RunsReplaced(s)
    ensures var t := Trim(s, {'_'});
      var r := if t == [] then "tournament" else t;
      r != [] && RunsReplaced(r) && r[0] != '_' && r[|r| - 1] != '_'
  {
    TrimRuns(s);
    FallbackSlugShaped();
  }

  /** A name already made of lower-case letters and digits is its own slug. */
  lemma SlugOfPlainName(name: string)
    requires name != [] && forall i :: 0 <= i < |name| ==> SlugChar(name[i])
    ensures Slug(name) == name
  {
    assert ToLower(name) == name;
    ReplaceRunsOfPlain(name);
    assert Trimmed(name, {'_'});
    TrimFixpoint(name, {'_'});
  }

  /** A name with no letter or digit of `[a-z0-9]` once lower-cased leaves nothing after the
      replacement and the strip, so the slug falls back to "tournament". */
  lemma SlugFallback(name: string)
    requires forall i :: 0 <= i < |name| ==> !SlugChar(ToLower(name)[i])
    ensures Slug(name) == "tournament"
  {
    var l := ToLower(name);
    if l != [] {
      ReplaceRunsOfNone(l);
      assert Trim("_", {'_'}) == [];
    }
  }

  /** Text with no `[a-z0-9]` at all is one run, replaced by a single '_'. */
  lemma ReplaceRunsOfNone(l: string)
    requires l != [] && forall i :: 0 <= i < |l| ==> !SlugChar(l[i])
    ensures ReplaceRuns(l) == "_"
  {
    assert SkipRun(l[1..]) == [];
  }

  lemma {:induction false} ReplaceRunsOfPlain(s: string)
    requires forall i :: 0 <= i < |s| ==> SlugChar(s[i])
    ensures ReplaceRuns(s) == s
  {
    if s != [] {
      assert forall i :: 0 <= i < |s[1..]| ==> s[1..][i] == s[i + 1];
      ReplaceRunsOfPlain(s[1..]);
      assert [s[0]] + s[1..] == s;
    }
  }

  /** `[u.strip() for u in pieces if u.strip()]`. */
  function StrippedPieces(pieces: seq<string>): (r: seq<string>)
    ensures forall k :: 0 <= k < |r| ==> r[k] != [] && Trimmed(r[k], WhiteSpace)
  {
    if pieces == [] then []
    else
      var u := Strip(pieces[0]);
      (if u != [] then [u] else []) + StrippedPieces(pieces[1..])
  }

  /** Every piece that is not blank once stripped is kept, stripped. */
  lemma {:induction false} StrippedPiecesKeeps(pieces: seq<string>, k: int)
    requires 0 <= k < |pieces| && Strip(pieces[k]) != []
    ensures Strip(pieces[k]) in StrippedPieces(pieces)
  {
    var u0 := Strip(pieces[0]);
    assert StrippedPieces(pieces) == (if u0 != [] then [u0] else []) + StrippedPieces(pieces[1..]);
    if k > 0 {
      assert pieces[1..][k - 1] == pieces[k];
      StrippedPiecesKeeps(pieces[1..], k - 1);
    }
  }

  /** Nothing but a stripped, non-blank piece is kept. */
  lemma {:induction false} StrippedPiecesOnly(pieces: seq<string>, u: string)
    requires u in StrippedPieces(pieces)
    ensures u != [] && exists k :: 0 <= k < |pieces| && u == Strip(pieces[k])
  {
    var u0 := Strip(pieces[0]);
    assert StrippedPieces(pieces) == (if u0 != [] then [u0] else []) + StrippedPieces(pieces[1..]);
    if u != u0 || u0 == [] {
      StrippedPiecesOnly(pieces[1..], u);
      var k :| 0 <= k < |pieces[1..]| && u == Strip(pieces[1..][k]);
      assert pieces[k + 1] == pieces[1..][k];
    }
  }

  lemma ConcatAssoc(p: seq<string>, q: seq<string>, r: seq<string>)
    ensures p + (q + r) == (p + q) + r
  {
  }

  /** The pieces are taken one by one, so they keep their order. */
  lemma {:induction false} StrippedPiecesAppend(a: seq<string>, b: seq<string>)
    ensures StrippedPieces(a + b) == StrippedPieces(a) + StrippedPieces(b)
  {
    if a == [] {
      assert a + b == b;
    } else {
      var ab := a + b;
      var u := Strip(a[0]);
      assert ab[0] == a[0] && ab[1..] == a[1..] + b;
      StrippedPiecesAppend(a[1..], b);
      if u != [] {
        assert StrippedPieces(ab) == [u] + StrippedPieces(a[1..] + b);
        ConcatAssoc([u], StrippedPieces(a[1..]), StrippedPieces(b));
      } else {
        assert StrippedPieces(ab) == [] + StrippedPieces(a[1..] + b);
        ConcatAssoc([], StrippedPieces(a[1..]), StrippedPieces(b));
      }
    }
  }

  /** TEAM_SCHEDULE_URLS: a RuntimeError when blank, otherwise the non-blank stripped pieces
      between commas. */
  function ScheduleUrls(raw: string): (r: Result<seq<string>, string>)
    ensures r.Failure? <==> Strip(raw) == []
  {
    var s := Strip(raw);
    if s == [] then Failure("TEAM_SCHEDULE_URLS is required (comma-separated GC schedule URLs).")
    else Success(StrippedPieces(Split(s, ',')))
  }

  /** Each URL is non-empty, stripped and free of commas. */
  lemma {:induction false} StrippedPiecesNoComma(pieces: seq<string>)
    requires forall k :: 0 <= k < |pieces| ==> ',' !in pieces[k]
    ensures forall k :: 0 <= k < |StrippedPieces(pieces)| ==> ',' !in StrippedPieces(pieces)[k]
  {
    if pieces != [] {
      assert forall k :: 0 <= k < |pieces[1..]| ==> pieces[1..][k] == pieces[k + 1];
      StrippedPiecesNoComma(pieces[1..]);
      StripKeepsOut(pieces[0], ',');
    }
  }

  lemma StripKeepsOut(s: string, c: char)
    requires c !in s
    ensures c !in Strip(s)
  {
    var e := TrimEnd(s, WhiteSpace);
    assert e == s[..|e|];
    var t := TrimStart(e, WhiteSpace);
    assert t == e[|e| - |t|..];
  }

  lemma ScheduleUrlsShape(raw: string)
    requires Strip(raw) != []
    ensures forall k :: 0 <= k < |ScheduleUrls(raw).value| ==>
      var u := ScheduleUrls(raw).value[k]; u != [] && Trimmed(u, WhiteSpace) && ',' !in u
  {
    StrippedPiecesNoComma(Split(Strip(raw), ','));
  }
}
