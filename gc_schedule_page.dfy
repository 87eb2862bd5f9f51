/**
  * scrape_gc_schedules.py: the entries `parse_schedule_page` reads off a team's schedule page and the
  * game ids `main` derives from them.
  */
module GcSchedulePage {
  import opened Wrappers
  import opened Text
  import opened GcText

  /** An event link of a day row: its href ("" when absent) and the texts of its title and
      score-or-time elements (None when the element is missing). */
  datatype EventLink = EventLink(href: string, title: Option<string>, score: Option<string>)

  /** A day row: the text of its date element (None when missing) and its event links. */
  datatype DayRow = DayRow(dateText: Option<string>, events: seq<EventLink>)

  /** A month section: the title of the section header before it (None when there is no header or
      no title in it) and its day rows. */
  datatype MonthSection = MonthSection(title: Option<string>, days: seq<DayRow>)

  /** One schedule entry: url, date label, score text and home/away flag. */
  datatype ScheduleGame = ScheduleGame(url: string, date: string, score: string, ha: string)

  const GcOrigin: string := "https://web.gc.com"

  /** Site-relative links get the site origin in front; others are kept. */
  function GameUrl(href: string): (r: string)
    ensures EndsWith(r, href)
    ensures StartsWith(href, "/") ==> StartsWith(r, GcOrigin + "/") && |r| == |GcOrigin| + |href|
    ensures !StartsWith(href, "/") ==> r == href
  {
    if StartsWith(href, "/") then GcOrigin + href else href
  }

  /** "@ Opponent" is an away game, "vs. Opponent" (in any case) a home game, anything else unknown. */
  function HomeAway(title: string): (r: string)
    ensures r in {"", "HOME", "AWAY"}
    ensures r == "AWAY" <==> StartsWith(title, "@")
    ensures r == "HOME" <==> !StartsWith(title, "@") && StartsWith(ToLower(title), "vs.")
  {
    if StartsWith(title, "@") then "AWAY"
    else if StartsWith(ToLower(title), "vs.") then "HOME"
    else ""
  }

  /** "October 2025" and "15" give "October 2025 15"; with either part empty, the other one. */
  function DateLabel(monthYear: string, day: string): string
  {
    if monthYear != [] && day != [] then monthYear + " " + day
    else if monthYear != [] then monthYear
    else day
  }

  /** A date label built from normalized parts is normalized, and empty only when both parts are. */
  lemma DateLabelNormalized(monthYear: string, day: string)
    requires IsNormalized(monthYear) && IsNormalized(day)
    ensures IsNormalized(DateLabel(monthYear, day))
    ensures DateLabel(monthYear, day) == [] <==> monthYear == [] && day == []
  {
    if monthYear != [] && day != [] {
      NormalizedJoin(monthYear, day);
    }
  }

  /** The entry of one event link, or nothing for a link without href. */
  function EventGame(monthYear: string, day: string, e: EventLink): seq<ScheduleGame>
  {
    if e.href == [] then []
    else [ScheduleGame(GameUrl(e.href), DateLabel(monthYear, day), NormalizeText(e.score), HomeAway(NormalizeText(e.title)))]
  }

  function EventGames(monthYear: string, day: string, events: seq<EventLink>): seq<ScheduleGame>
    decreases |events|
  {
    if events == [] then []
    else EventGames(monthYear, day, events[..|events| - 1]) + EventGame(monthYear, day, events[|events| - 1])
  }

  function DayGames(monthYear: string, days: seq<DayRow>): seq<ScheduleGame>
    decreases |days|
  {
    if days == [] then []
    else
      var d := days[|days| - 1];
      DayGames(monthYear, days[..|days| - 1]) + EventGames(monthYear, NormalizeText(d.dateText), d.events)
  }

  /** The entries of a schedule page, section by section, day by day, link by link. */
  function ScheduleGames(sections: seq<MonthSection>): seq<ScheduleGame>
    decreases |sections|
  {
    if sections == [] then []
    else
      var s := sections[|sections| - 1];
      ScheduleGames(sections[..|sections| - 1]) + DayGames(NormalizeText(s.title), s.days)
  }

  /** What every entry satisfies: a non-empty url, a flag among "", "HOME", "AWAY", normalized score
      and date texts. */
  predicate WellFormedGame(g: ScheduleGame)
  {
    g.url != [] && g.ha in {"", "HOME", "AWAY"} && IsNormalized(g.score) && IsNormalized(g.date)
  }

  predicate AllWellFormed(games: seq<ScheduleGame>)
  {
    forall k :: 0 <= k < |games| ==> WellFormedGame(games[k])
  }

  lemma {:induction false} EventGamesWellFormed(monthYear: string, day: string, events: seq<EventLink>)
    requires IsNormalized(monthYear) && IsNormalized(day)
    ensures AllWellFormed(EventGames(monthYear, day, events))
    decreases |events|
  {
    if events != [] {
      EventGamesWellFormed(monthYear, day, events[..|events| - 1]);
      DateLabelNormalized(monthYear, day);
      var e := events[|events| - 1];
      assert e.href != [] ==> GameUrl(e.href) != [];
    }
  }

  lemma {:induction false} DayGamesWellFormed(monthYear: string, days: seq<DayRow>)
    requires IsNormalized(monthYear)
    ensures AllWellFormed(DayGames(monthYear, days))
    decreases |days|
  {
    if days != [] {
      var d := days[|days| - 1];
      DayGamesWellFormed(monthYear, days[..|days| - 1]);
      EventGamesWellFormed(monthYear, NormalizeText(d.dateText), d.events);
    }
  }

  /** Every entry of a schedule page is well formed. */
  lemma {:induction false} ScheduleGamesWellFormed(sections: seq<MonthSection>)
    ensures AllWellFormed(ScheduleGames(sections))
    decreases |sections|
  {
    if sections != [] {
      var s := sections[|sections| - 1];
      ScheduleGamesWellFormed(sections[..|sections| - 1]);
      DayGamesWellFormed(NormalizeText(s.title), s.days);
    }
  }

  method ParseEvents(monthYear: string, day: string, events: seq<EventLink>) returns (games: seq<ScheduleGame>)
    ensures games == EventGames(monthYear, day, events)
  {
    games := [];
    for k := 0 to |events|
      invariant games == EventGames(monthYear, day, events[..k])
    {
      assert events[..k + 1][..k] == events[..k];
      var a := events[k];
      if a.href == [] {
        continue;
      }
      var gameUrl := GameUrl(a.href);
      var titleText := NormalizeText(a.title);
      var scoreText := NormalizeText(a.score);
      var ha := HomeAway(titleText);
      games := games + [ScheduleGame(gameUrl, DateLabel(monthYear, day), scoreText, ha)];
    }
    assert events[..|events|] == events;
  }

  method ParseDays(monthYear: string, days: seq<DayRow>) returns (games: seq<ScheduleGame>)
    ensures games == DayGames(monthYear, days)
  {
    games := [];
    for d := 0 to |days|
      invariant games == DayGames(monthYear, days[..d])
    {
      assert days[..d + 1][..d] == days[..d];
      var dayText := NormalizeText(days[d].dateText);
      var dayGames := ParseEvents(monthYear, dayText, days[d].events);
      games := games + dayGames;
    }
    assert days[..|days|] == days;
  }

  /** `parse_schedule_page` once the page is loaded: walk sections, day rows and event links. */
  method ParseSchedulePage(sections: seq<MonthSection>) returns (games: seq<ScheduleGame>)
    ensures games == ScheduleGames(sections)
  {
    games := [];
    for s := 0 to |sections|
      invariant games == ScheduleGames(sections[..s])
    {
      assert sections[..s + 1][..s] == sections[..s];
      var monthYear := NormalizeText(sections[s].title);
      assert ScheduleGames(sections[..s + 1]) == ScheduleGames(sections[..s]) + DayGames(monthYear, sections[s].days);
      var sectionGames := ParseDays(monthYear, sections[s].days);
      games := games + sectionGames;
    }
    assert sections[..|sections|] == sections;
  }

  // ---------------------------------------------------------------------------
  // Game ids in main

  const Opponent: string := "OPP"

  /** The (home, away) pair for a game of team `slug`: AWAY puts the team second, HOME and anything
      else put it first; the flag is compared in upper case. */
  function TeamsFor(ha: string, slug: string): (r: (string, string))
    ensures r == (Opponent, slug) || r == (slug, Opponent)
    ensures ToUpper(ha) == "AWAY" ==> r == (Opponent, slug)
    ensures ToUpper(ha) != "AWAY" ==> r == (slug, Opponent)
  {
    var flag := ToUpper(ha);
    if flag == "HOME" then (slug, Opponent)
    else if flag == "AWAY" then (Opponent, slug)
    else (slug, Opponent)
  }

  /** `f"{date}_{home}_vs_{away}".replace(" ", "_")`. */
  function GameId(date: string, home: string, away: string): (r: string)
    ensures ' ' !in r
    ensures |r| == |date| + |home| + |away| + 5
    ensures forall i :: 0 <= i < |date| && date[i] != ' ' ==> r[i] == date[i]
  {
    ReplaceChar(date + "_" + home + "_vs_" + away, ' ', '_')
  }

  /** The id and box-score url `main` derives for one schedule entry of team `slug`. */
  datatype GamePlan = GamePlan(gameId: string, boxScoreUrl: Option<string>)

  function PlanGame(g: ScheduleGame, slug: string): (r: GamePlan)
    ensures ' ' !in r.gameId
    ensures r.boxScoreUrl.Some? <==> g.url != []
    ensures r.boxScoreUrl.Some? ==> r.boxScoreUrl.value == g.url + "/box-score"
  {
    var teams := TeamsFor(g.ha, slug);
    GamePlan(GameId(g.date, teams.0, teams.1), if g.url != [] then Some(g.url + "/box-score") else None)
  }

  /** A home game and a game without a flag on the same date get the same id: the fallback treats the
      team as the home side. */
  lemma MissingFlagActsAsHome(g: ScheduleGame, slug: string)
    requires ToUpper(g.ha) == "HOME"
    ensures PlanGame(g, slug).gameId == PlanGame(g.(ha := ""), slug).gameId
  {
  }

  /** The team slug `url.split("/")[-2]` and team id `url.split("/")[4]` of a schedule url (None where
      Python would raise IndexError). */
  function TeamSlug(url: string): (r: Option<string>)
    ensures r.Some? ==> '/' !in r.value
  {
    var parts := Split(url, '/');
    if |parts| >= 2 then Some(parts[|parts| - 2]) else None
  }

  function TeamIdFromUrl(url: string): (r: Option<string>)
    ensures r.Some? ==> '/' !in r.value
  {
    var parts := Split(url, '/');
    if |parts| >= 5 then Some(parts[4]) else None
  }
}
