/**
  * scrape_gc_tournament.py: `parse_int_safe`, `filter_games_by_tournament` and the game id
  * taken from a schedule card's link.
  */
module GcTournament {
  import opened Wrappers
  import opened Text
  import opened Filtering
  import ThreatBoard

  /** One scraped schedule game (the `GameRow` dataclass). */
  datatype GameRow = GameRow(
    gameId: string,
    gameDate: Option<string>,
    tournamentName: Option<string>,
    homeTeam: string,
    awayTeam: string,
    homeScore: Option<int>,
    awayScore: Option<int>,
    status: string)

  // ---------------------------------------------------------------------------
  // parse_int_safe

  /** `parse_int_safe(text)`: None stands for the empty string; blank text gives None, and so
      does text `int()` rejects. */
  function ParseIntSafe(text: Option<string>): (r: Option<int>)
    ensures text.None? ==> r == None
    ensures r.Some? ==> Strip(text.value) != []
  {
    var s := Strip(text.GetOr(""));
    if s == [] then None else ParsePyInt(s)
  }

  /** Text that `int()` accepts gives its integer, and text it rejects gives None. */
  lemma ParseIntSafeIsInt(s: string)
    ensures ParseIntSafe(Some(s)) == ParsePyInt(s)
  {
    ParsePyIntStripped(s);
  }

  /** Whitespace-only text gives None. */
  lemma ParseIntSafeBlank(s: string)
    requires AllIn(s, WhiteSpace)
    ensures ParseIntSafe(Some(s)) == None
  {
    TrimEndPastTail([], s, WhiteSpace);
    assert [] + s == s;
  }

  /** The decimal text of any integer, padded with whitespace, reads back as that integer. */
  lemma ParseIntSafeOfString(n: int, pre: string, post: string)
    requires AllIn(pre, WhiteSpace) && AllIn(post, WhiteSpace)
    ensures ParseIntSafe(Some(pre + IntToString(n) + post)) == Some(n)
  {
    ThreatBoard.ParseIntSafeOfString(n, pre, post);
    ParseIntSafeAgrees(Some(pre + IntToString(n) + post));
  }

  /** A character inside the stripped text that is neither a digit nor a sign gives None:
      the ValueError is caught. */
  lemma ParseIntSafeRejects(s: string, i: int)
    requires 0 <= i < |Strip(s)|
    requires !IsDigit(Strip(s)[i]) && Strip(s)[i] != '+' && Strip(s)[i] != '-'
    ensures ParseIntSafe(Some(s)) == None
  {
    ParsePyIntRejects(s, i);
    ParseIntSafeIsInt(s);
  }

  /** This scraper's `(text or "").strip()` and the threat board's explicit None test give the
      same parser. */
  lemma ParseIntSafeAgrees(text: Option<string>)
    ensures ParseIntSafe(text) == ThreatBoard.ParseIntSafe(text)
  {
    if text.None? {
      assert Strip("") == [];
    }
  }

  // ---------------------------------------------------------------------------
  // filter_games_by_tournament

  /** The comprehension's condition: a non-empty tournament name whose lower case contains
      the key. */
  predicate InTournament(g: GameRow, key: string)
  {
    g.tournamentName.Some? && g.tournamentName.value != [] && Contains(ToLower(g.tournamentName.value), key)
  }

  /** The condition as a value, for the comprehension. */
  function InTournamentOf(key: string): GameRow -> bool
  {
    g => InTournament(g, key)
  }

  /** `filter_games_by_tournament`: the games unchanged for a None or empty filter, otherwise
      those whose tournament name contains the lower-cased filter. */
  function FilterGamesByTournament(games: seq<GameRow>, filter: Option<string>): (r: seq<GameRow>)
    ensures filter.None? || filter.value == [] ==> r == games
    ensures |r| <= |games|
  {
    if filter.None? || filter.value == [] then games else Filter(games, InTournamentOf(ToLower(filter.value)))
  }

  /** With a non-empty filter, a game is in the result exactly when it is in the input and its
      non-empty tournament name contains the filter, ignoring case. */
  lemma FilterMembers(games: seq<GameRow>, filter: string, g: GameRow)
    requires filter != []
    ensures g in FilterGamesByTournament(games, Some(filter)) <==>
            g in games && g.tournamentName.Some? && g.tournamentName.value != [] &&
            Contains(ToLower(g.tournamentName.value), ToLower(filter))
  {
    Filtering.FilterMembers(games, InTournamentOf(ToLower(filter)), g);
  }

  /** The filtered games of a concatenation are the filtered games of each part, in order. */
  lemma FilterAppend(a: seq<GameRow>, b: seq<GameRow>, filter: Option<string>)
    ensures FilterGamesByTournament(a + b, filter) ==
            FilterGamesByTournament(a, filter) + FilterGamesByTournament(b, filter)
  {
    if filter.Some? && filter.value != [] {
      Filtering.FilterAppend(a, b, InTournamentOf(ToLower(filter.value)));
    }
  }

  /** Filtering twice by the same text filters once. */
  lemma FilterIdempotent(games: seq<GameRow>, filter: Option<string>)
    ensures FilterGamesByTournament(FilterGamesByTournament(games, filter), filter) ==
            FilterGamesByTournament(games, filter)
  {
    if filter.Some? && filter.value != [] {
      Filtering.FilterIdempotent(games, InTournamentOf(ToLower(filter.value)));
    }
  }

  /** A game with a matching tournament name is kept, wherever the filter's letters change case. */
  lemma FilterIgnoresCase(games: seq<GameRow>, filter: string)
    ensures FilterGamesByTournament(games, Some(ToUpper(filter))) == FilterGamesByTournament(games, Some(filter))
  {
    ThreatBoard.LowerUpper(filter);
  }

  // ---------------------------------------------------------------------------
  // game id

  // `game_url.rstrip("/").split("/")[-1]` is the threat board's card-link rule as well, so the
  // game id is ThreatBoard.GameIdOfHref.

  /** The game id is the longest '/'-free tail of the link once its trailing slashes are
      stripped: it ends that text, and a '/' stands right before it unless it is all of it. */
  lemma GameIdIsLastSegment(url: string)
    ensures var t := TrimEnd(url, {'/'});
            var id := ThreatBoard.GameIdOfHref(url);
            EndsWith(t, id) && '/' !in id && (|id| < |t| ==> t[|t| - |id| - 1] == '/')
  {
    LastPieceIsTail(TrimEnd(url, {'/'}), '/');
  }

  lemma LastPieceIsTail(s: string, sep: char)
    ensures var r := LastPiece(s, sep);
            EndsWith(s, r) && (|r| < |s| ==> s[|s| - |r| - 1] == sep)
  {
    if sep !in s {
      SplitWithoutSeparator(s, sep);
    } else {
      var i := LastSeparator(s, sep);
      var a, b := s[..i], s[i + 1..];
      assert s == a + [sep] + b;
      SplitConcat(a, b, sep);
      SplitWithoutSeparator(b, sep);
      assert LastPiece(s, sep) == b;
    }
  }

  /** The position of the last separator in a string that holds one. */
  lemma {:induction false} LastSeparator(s: string, sep: char) returns (i: int)
    requires sep in s
    ensures 0 <= i < |s| && s[i] == sep && sep !in s[i + 1..]
    decreases |s|
  {
    var n := |s| - 1;
    if s[n] == sep {
      i := n;
    } else {
      assert s == s[..n] + [s[n]];
      i := LastSeparator(s[..n], sep);
      assert s[i + 1..] == s[..n][i + 1..] + [s[n]];
    }
  }

  /** A link without any '/' is its own id. */
  lemma GameIdOfBareId(id: string)
    requires '/' !in id
    ensures ThreatBoard.GameIdOfHref(id) == id
  {
    if id != [] {
      assert id[|id| - 1] in id;
    }
    assert TrimEnd(id, {'/'}) == id;
    SplitWithoutSeparator(id, '/');
  }
}
