/**
  * `parse_schedule_page` of the newer GameChanger scraper
  * (newsiteshitz/gcscraper/scrape_gc_schedules.py).  The page is a list of sticky month headers,
  * each followed by a month section of day rows, each holding event links.  Element selection
  * is abstracted away: every element the scraper looks up is an `Option` (None when the page
  * lacks it) holding the element's text.
  *
  * Days whose number is not an integer are skipped; a day number that the calendar rejects
  * makes `datetime(...)` raise, and that exception leaves the whole page, so the result is a
  * `Result` whose failure carries the offending date.
  */
module NewsiteSchedule {
  import opened Wrappers
  import opened Text

  datatype Side = Home | Away

  /** One `a.ScheduleListByMonth__event`: its href attribute, the semibold title text and the
      score-or-time text. */
  datatype EventLink = EventLink(href: Option<string>, title: Option<string>, scoreText: Option<string>)

  /** One `div.ScheduleListByMonth__dayRow`: its date text and its event links. */
  datatype DayRow = DayRow(dateText: Option<string>, events: seq<EventLink>)

  /** One sticky header: the section title text and the month section that follows it. */
  datatype MonthHeader = MonthHeader(title: Option<string>, section: Option<seq<DayRow>>)

  /** One element of the returned list. */
  datatype ScheduledGame = ScheduledGame(
    gameDate: string,
    boxScoreUrl: string,
    homeOrAway: Option<Side>,
    ourScore: Option<int>,
    oppScore: Option<int>)

  /** The ValueError `datetime(year, month, day)` raises for a day outside the month. */
  datatype CalendarError = DayOutOfRange(year: int, month: int, day: int)

  const GcOrigin: string := "https://web.gc.com"

  // ---------------------------------------------------------------------------
  // the month header: `datetime.strptime(month_year, "%B %Y")`

  /** The number of a full English month name written in lower case, 0 for any other word. */
  function MonthNumber(w: string): (n: nat)
    ensures n <= 12
  {
    if w == "january" then 1 else if w == "february" then 2 else if w == "march" then 3
    else if w == "april" then 4 else if w == "may" then 5 else if w == "june" then 6
    else if w == "july" then 7 else if w == "august" then 8 else if w == "september" then 9
    else if w == "october" then 10 else if w == "november" then 11 else if w == "december" then 12
    else 0
  }

  /** `strptime(t, "%B %Y")` as (year, month): a full month name in any case, whitespace, and
      exactly four digits naming a year from 1 on; None where strptime raises ValueError.  No month
      name holds whitespace, so the name is the first word of `t`. */
  function MonthYear(t: string): (r: Option<(nat, nat)>)
    ensures r.Some? ==> 1 <= r.value.0 <= 9999 && 1 <= r.value.1 <= 12
  {
    var n := WordLen(t);
    var m := MonthNumber(ToLower(t[..n]));
    var rest := t[n..];
    var digits := TrimStart(rest, WhiteSpace);
    if m != 0 && |digits| < |rest| && |digits| == 4 && AllDigits(digits) && DigitsValue(digits) >= 1 then
      DigitsValueBound(digits);
      Some((DigitsValue(digits), m))
    else None
  }

  // ---------------------------------------------------------------------------
  // the calendar: `datetime(year, month, day)` and `strftime("%Y-%m-%d")`

  predicate IsLeapYear(y: int)
  {
    y % 4 == 0 && (y % 100 != 0 || y % 400 == 0)
  }

  function DaysInMonth(y: int, m: int): (n: int)
    requires 1 <= m <= 12
    ensures 28 <= n <= 31
  {
    if m == 2 then (if IsLeapYear(y) then 29 else 28)
    else if m == 4 || m == 6 || m == 9 || m == 11 then 30
    else 31
  }

  /** The dates `datetime` accepts. */
  predicate ValidDate(y: int, m: int, d: int)
  {
    1 <= y <= 9999 && 1 <= m <= 12 && 1 <= d <= DaysInMonth(y, m)
  }

  /** `YYYY-MM-DD`. */
  function FormatDate(y: nat, m: nat, d: nat): string
  {
    ZeroPad(NatToString(y), 4) + "-" + ZeroPad(NatToString(m), 2) + "-" + ZeroPad(NatToString(d), 2)
  }

  /** A zero-padded number that fits its width has exactly that width and reads back as itself. */
  lemma PaddedReadsBack(n: nat, width: nat)
    requires 1 <= width && n < Pow10(width)
    ensures var s := ZeroPad(NatToString(n), width); |s| == width && ParsePyInt(s) == Some(n)
  {
    NatToStringLength(n, width);
    ZeroPadDigits(NatToString(n), width);
    ParsePyIntDigits(ZeroPad(NatToString(n), width));
  }

  lemma DateSlices(ys: string, ms: string, ds: string)
    requires |ys| == 4 && |ms| == 2 && |ds| == 2
    ensures var s := ys + "-" + ms + "-" + ds;
      |s| == 10 && s[4] == '-' && s[7] == '-' && s[..4] == ys && s[5..7] == ms && s[8..] == ds
  {
  }

  /** The formatted date of a valid day is ten characters, dashes at 4 and 7, and its three
      parts read back as the year, the month and the day. */
  lemma FormatDateReadsBack(y: nat, m: nat, d: nat)
    requires ValidDate(y, m, d)
    ensures var s := FormatDate(y, m, d);
      |s| == 10 && s[4] == '-' && s[7] == '-' &&
      ParsePyInt(s[..4]) == Some(y) && ParsePyInt(s[5..7]) == Some(m) && ParsePyInt(s[8..]) == Some(d)
  {
    assert Pow10(4) == 10000 && Pow10(2) == 100;
    PaddedReadsBack(y, 4);
    PaddedReadsBack(m, 2);
    PaddedReadsBack(d, 2);
    DateSlices(ZeroPad(NatToString(y), 4), ZeroPad(NatToString(m), 2), ZeroPad(NatToString(d), 2));
  }

  // ---------------------------------------------------------------------------
  // one event link

  /** `home_or_away`: a title starting "vs." is HOME, else one starting "@" is AWAY, else None.
      The comparison is case-sensitive and "vs." is tried first. */
  function HomeAwayFlag(title: string): (r: Option<Side>)
    ensures r == Some(Home) <==> StartsWith(title, "vs.")
    ensures r == Some(Away) <==> !StartsWith(title, "vs.") && StartsWith(title, "@")
    ensures r == None <==> !StartsWith(title, "vs.") && !StartsWith(title, "@")
  {
    if StartsWith(title, "vs.") then Some(Home)
    else if StartsWith(title, "@") then Some(Away)
    else None
  }

  lemma HomeAwayOfTitle(opponent: string)
    ensures HomeAwayFlag("vs. " + opponent) == Some(Home)
    ensures HomeAwayFlag("@ " + opponent) == Some(Away)
    ensures HomeAwayFlag("VS. " + opponent) == None
  {
    assert "vs." <= "vs. " + opponent;
    assert "@" <= "@ " + opponent && ("@ " + opponent)[0] == '@';
    assert ("VS. " + opponent)[0] == 'V';
  }

  /** `our_score, opp_score`: a score text starting "W " or "L " whose remainder splits on '-'
      into exactly two integers gives both; anything else gives neither. */
  function ParseScore(s: string): (r: (Option<int>, Option<int>))
    ensures r.0.Some? <==> r.1.Some?
    ensures r.0.Some? ==> StartsWith(s, "W ") || StartsWith(s, "L ")
    ensures r.0.Some? ==> var parts := Split(s[2..], '-');
      |parts| == 2 && r.0 == ParsePyInt(parts[0]) && r.1 == ParsePyInt(parts[1])
  {
    if s != [] && (StartsWith(s, "W ") || StartsWith(s, "L ")) then
      var parts := Split(s[2..], '-');
      if |parts| == 2 then
        match (ParsePyInt(parts[0]), ParsePyInt(parts[1]))
        case (Some(a), Some(b)) => (Some(a), Some(b))
        case _ => (None, None)
      else (None, None)
    else (None, None)
  }

  /** A win or loss prefix, then two '-'-free parts around a single '-'. */
  lemma ScoreParts(p: string, a: string, b: string)
    requires |p| == 2 && '-' !in a && '-' !in b
    ensures var s := p + a + "-" + b; p <= s && s[2..] == a + "-" + b && Split(s[2..], '-') == [a, b]
  {
    var t := a + "-" + b;
    var s := p + a + "-" + b;
    assert s == p + t;
    assert t == a + ['-'] + b;
    SplitAtSeparator(a, b, '-');
    SplitWithoutSeparator(b, '-');
  }

  lemma ParseScoreOfSplit(s: string, a: string, b: string)
    requires StartsWith(s, "W ") || StartsWith(s, "L ")
    requires Split(s[2..], '-') == [a, b]
    requires ParsePyInt(a).Some? && ParsePyInt(b).Some?
    ensures ParseScore(s) == (ParsePyInt(a), ParsePyInt(b))
  {
  }

  /** The score the site writes for a finished game reads back as the two runs totals. */
  lemma ParseScoreOfResult(won: bool, ours: nat, theirs: nat)
    ensures ParseScore((if won then "W " else "L ") + NatToString(ours) + "-" + NatToString(theirs))
      == (Some(ours as int), Some(theirs as int))
  {
    var p := if won then "W " else "L ";
    var a := NatToString(ours);
    var b := NatToString(theirs);
    ScoreParts(p, a, b);
    ParsePyIntOfString(ours);
    ParsePyIntOfString(theirs);
    ParseScoreOfSplit(p + a + "-" + b, a, b);
  }

  /** A time or any text other than a win or a loss leaves both scores unset. */
  lemma ParseScoreOfTime(s: string)
    requires !StartsWith(s, "W ") && !StartsWith(s, "L ")
    ensures ParseScore(s) == (None, None)
  {
  }

  function TextOr(t: Option<string>): string
  {
    match t
    case None => ""
    case Some(s) => Strip(s)
  }

  /** The game an event link yields on the given date; None for a missing or empty href. */
  function EventGame(date: string, e: EventLink): (r: Option<ScheduledGame>)
  {
    match e.href
    case None => None
    case Some(href) =>
      if href == [] then None
      else
        var score := ParseScore(TextOr(e.scoreText));
        Some(ScheduledGame(date, GcOrigin + href, HomeAwayFlag(TextOr(e.title)), score.0, score.1))
  }

  function EventGames(date: string, es: seq<EventLink>): seq<ScheduledGame>
  {
    if es == [] then []
    else
      var last := EventGame(date, es[|es| - 1]);
      EventGames(date, es[..|es| - 1]) + (if last.Some? then [last.value] else [])
  }

  /** The day number of a day row: its date text read by `int()`, None when absent or when `int()` raises. */
  function DayNumber(day: DayRow): Option<int>
  {
    match day.dateText
    case None => None
    case Some(t) => ParsePyInt(Strip(t))
  }

  /** What one day row adds: nothing without a date or with a non-integer day, a failure for a day
      the calendar rejects, otherwise the games of its event links on that date. */
  function DayStep(y: nat, m: nat, day: DayRow): Result<seq<ScheduledGame>, CalendarError>
  {
    match DayNumber(day)
    case None => Success([])
    case Some(d) =>
      if ValidDate(y, m, d) then Success(EventGames(FormatDate(y, m, d), day.events))
      else Failure(DayOutOfRange(y, m, d))
  }

  /** Appending the games of one more step, stopping at the first failure. */
  function Then(prev: Result<seq<ScheduledGame>, CalendarError>, step: Result<seq<ScheduledGame>, CalendarError>):
    Result<seq<ScheduledGame>, CalendarError>
  {
    if prev.Failure? then prev
    else if step.Failure? then step
    else Success(prev.value + step.value)
  }

  function DayGames(y: nat, m: nat, days: seq<DayRow>): Result<seq<ScheduledGame>, CalendarError>
  {
    if days == [] then Success([])
    else Then(DayGames(y, m, days[..|days| - 1]), DayStep(y, m, days[|days| - 1]))
  }

  /** What one header adds: nothing when its title is missing or not a month and year, or when no
      month section follows it; otherwise the games of the section's days. */
  /** The month of a header: its title read by `strptime`, None when absent or when `strptime` raises. */
  function HeaderMonth(h: MonthHeader): Option<(nat, nat)>
  {
    match h.title
    case None => None
    case Some(t) => MonthYear(Strip(t))
  }

  function HeaderStep(h: MonthHeader): Result<seq<ScheduledGame>, CalendarError>
  {
    match HeaderMonth(h)
    case None => Success([])
    case Some((y, m)) =>
      match h.section
      case None => Success([])
      case Some(days) => DayGames(y, m, days)
  }

  lemma HeaderStepIs(h: MonthHeader)
    ensures HeaderStep(h) == if HeaderMonth(h).Some? && h.section.Some?
      then DayGames(HeaderMonth(h).value.0, HeaderMonth(h).value.1, h.section.value) else Success([])
  {
  }

  /** The specification of `parse_schedule_page`. */
  function ScheduleGames(hs: seq<MonthHeader>): Result<seq<ScheduledGame>, CalendarError>
  {
    if hs == [] then Success([])
    else Then(ScheduleGames(hs[..|hs| - 1]), HeaderStep(hs[|hs| - 1]))
  }

  // ---------------------------------------------------------------------------
  // the nested loops

  /** Once a prefix of the day rows has failed, the whole fold fails the same way. */
  lemma {:induction false} DayFailureSticks(y: nat, m: nat, days: seq<DayRow>, j: nat)
    requires j <= |days| && DayGames(y, m, days[..j]).Failure?
    ensures DayGames(y, m, days) == DayGames(y, m, days[..j])
    decreases |days|
  {
    if j == |days| {
      assert days[..j] == days;
    } else {
      var init := days[..|days| - 1];
      assert init[..j] == days[..j];
      DayFailureSticks(y, m, init, j);
    }
  }

  lemma {:induction false} HeaderFailureSticks(hs: seq<MonthHeader>, j: nat)
    requires j <= |hs| && ScheduleGames(hs[..j]).Failure?
    ensures ScheduleGames(hs) == ScheduleGames(hs[..j])
    decreases |hs|
  {
    if j == |hs| {
      assert hs[..j] == hs;
    } else {
      var init := hs[..|hs| - 1];
      assert init[..j] == hs[..j];
      HeaderFailureSticks(init, j);
    }
  }

  method ParseEvents(date: string, es: seq<EventLink>) returns (games: seq<ScheduledGame>)
    ensures games == EventGames(date, es)
  {
    games := [];
    for i := 0 to |es|
      invariant games == EventGames(date, es[..i])
    {
      assert es[..i + 1][..i] == es[..i];
      var e := es[i];
      if e.href.Some? && e.href.value != [] {
        var score := ParseScore(TextOr(e.scoreText));
        games := games + [ScheduledGame(date, GcOrigin + e.href.value, HomeAwayFlag(TextOr(e.title)), score.0, score.1)];
      }
    }
    assert es[..|es|] == es;
  }

  method ParseDays(y: nat, m: nat, days: seq<DayRow>) returns (r: Result<seq<ScheduledGame>, CalendarError>)
    ensures r == DayGames(y, m, days)
  {
    var games: seq<ScheduledGame> := [];
    for i := 0 to |days|
      invariant DayGames(y, m, days[..i]) == Success(games)
    {
      assert days[..i + 1][..i] == days[..i];
      var day := days[i];
      assert DayGames(y, m, days[..i + 1]) == Then(Success(games), DayStep(y, m, day));
      var n := DayNumber(day);
      if n.Some? {
        if !ValidDate(y, m, n.value) {
          DayFailureSticks(y, m, days, i + 1);
          return Failure(DayOutOfRange(y, m, n.value));
        }
        var more := ParseEvents(FormatDate(y, m, n.value), day.events);
        games := games + more;
      } else {
        assert games + [] == games;
      }
    }
    assert days[..|days|] == days;
    return Success(games);
  }

  /** `parse_schedule_page`, walking headers, days and links in page order. */
  method ParseSchedulePage(hs: seq<MonthHeader>) returns (r: Result<seq<ScheduledGame>, CalendarError>)
    ensures r == ScheduleGames(hs)
  {
    var games: seq<ScheduledGame> := [];
    for i := 0 to |hs|
      invariant ScheduleGames(hs[..i]) == Success(games)
    {
      assert hs[..i + 1][..i] == hs[..i];
      var h := hs[i];
      assert ScheduleGames(hs[..i + 1]) == Then(Success(games), HeaderStep(h));
      HeaderStepIs(h);
      var my := HeaderMonth(h);
      if my.Some? && h.section.Some? {
        var more := ParseDays(my.value.0, my.value.1, h.section.value);
        if more.Failure? {
          HeaderFailureSticks(hs, i + 1);
          return Failure(more.error);
        }
        games := games + more.value;
      } else {
        assert games + [] == games;
      }
    }
    assert hs[..|hs|] == hs;
    return Success(games);
  }

  // ---------------------------------------------------------------------------
  // what every returned game satisfies, and when the page fails

  /** A returned game: an absolute GameChanger URL with a non-empty path, a ten-character date,
      and the two scores set together. */
  predicate WellFormed(g: ScheduledGame)
  {
    StartsWith(g.boxScoreUrl, GcOrigin) && |g.boxScoreUrl| > |GcOrigin| &&
    |g.gameDate| == 10 &&
    (g.ourScore.Some? <==> g.oppScore.Some?)
  }

  predicate AllWellFormed(gs: seq<ScheduledGame>)
  {
    forall i :: 0 <= i < |gs| ==> WellFormed(gs[i])
  }

  lemma {:induction false} EventGamesWellFormed(date: string, es: seq<EventLink>)
    requires |date| == 10
    ensures AllWellFormed(EventGames(date, es))
  {
    if es != [] {
      EventGamesWellFormed(date, es[..|es| - 1]);
      var last := EventGame(date, es[|es| - 1]);
      if last.Some? {
        assert GcOrigin <= last.value.boxScoreUrl;
      }
    }
  }

  lemma ThenWellFormed(prev: Result<seq<ScheduledGame>, CalendarError>, step: Result<seq<ScheduledGame>, CalendarError>)
    requires prev.Success? ==> AllWellFormed(prev.value)
    requires step.Success? ==> AllWellFormed(step.value)
    ensures Then(prev, step).Success? ==> AllWellFormed(Then(prev, step).value)
  {
  }

  lemma DayStepWellFormed(y: nat, m: nat, day: DayRow)
    ensures DayStep(y, m, day).Success? ==> AllWellFormed(DayStep(y, m, day).value)
  {
    var n := DayNumber(day);
    if n.Some? && ValidDate(y, m, n.value) {
      FormatDateReadsBack(y, m, n.value);
      EventGamesWellFormed(FormatDate(y, m, n.value), day.events);
    }
  }

  lemma {:induction false} DayGamesWellFormed(y: nat, m: nat, days: seq<DayRow>)
    ensures DayGames(y, m, days).Success? ==> AllWellFormed(DayGames(y, m, days).value)
  {
    if days != [] {
      DayGamesWellFormed(y, m, days[..|days| - 1]);
      DayStepWellFormed(y, m, days[|days| - 1]);
      ThenWellFormed(DayGames(y, m, days[..|days| - 1]), DayStep(y, m, days[|days| - 1]));
    }
  }

  lemma HeaderStepWellFormed(h: MonthHeader)
    ensures HeaderStep(h).Success? ==> AllWellFormed(HeaderStep(h).value)
  {
    if HeaderMonth(h).Some? && h.section.Some? {
      DayGamesWellFormed(HeaderMonth(h).value.0, HeaderMonth(h).value.1, h.section.value);
    }
  }

  /** Every game `parse_schedule_page` returns is well formed. */
  lemma {:induction false} ScheduleGamesWellFormed(hs: seq<MonthHeader>)
    ensures ScheduleGames(hs).Success? ==> AllWellFormed(ScheduleGames(hs).value)
  {
    if hs != [] {
      ScheduleGamesWellFormed(hs[..|hs| - 1]);
      HeaderStepWellFormed(hs[|hs| - 1]);
      ThenWellFormed(ScheduleGames(hs[..|hs| - 1]), HeaderStep(hs[|hs| - 1]));
    }
  }

  /** A day row raises exactly when it has a date text holding an integer the calendar rejects. */
  predicate DayRaises(y: nat, m: nat, day: DayRow)
  {
    DayNumber(day).Some? && !ValidDate(y, m, DayNumber(day).value)
  }

  predicate HeaderRaises(h: MonthHeader)
  {
    HeaderMonth(h).Some? && h.section.Some? &&
    AnyDayRaises(HeaderMonth(h).value.0, HeaderMonth(h).value.1, h.section.value)
  }

  /** Some header of `hs` raises. */
  predicate AnyHeaderRaises(hs: seq<MonthHeader>)
  {
    hs != [] && (AnyHeaderRaises(hs[..|hs| - 1]) || HeaderRaises(hs[|hs| - 1]))
  }

  /** One more day row: the fold fails when the earlier rows did or when this one raises. */
  lemma DayGamesStep(y: nat, m: nat, days: seq<DayRow>)
    requires days != []
    ensures DayGames(y, m, days).Failure? <==>
      DayGames(y, m, days[..|days| - 1]).Failure? || DayRaises(y, m, days[|days| - 1])
  {
    var day := days[|days| - 1];
    assert DayStep(y, m, day).Failure? <==> DayRaises(y, m, day);
  }

  /** Some day row of `days` raises. */
  predicate AnyDayRaises(y: nat, m: nat, days: seq<DayRow>)
  {
    days != [] && (AnyDayRaises(y, m, days[..|days| - 1]) || DayRaises(y, m, days[|days| - 1]))
  }

  lemma {:induction false} DayGamesFailIff(y: nat, m: nat, days: seq<DayRow>)
    ensures DayGames(y, m, days).Failure? <==> AnyDayRaises(y, m, days)
  {
    if days != [] {
      DayGamesFailIff(y, m, days[..|days| - 1]);
      DayGamesStep(y, m, days);
    }
  }

  lemma HeaderStepFails(h: MonthHeader)
    ensures HeaderStep(h).Failure? <==> HeaderRaises(h)
  {
    HeaderStepIs(h);
    if HeaderMonth(h).Some? && h.section.Some? {
      DayGamesFailIff(HeaderMonth(h).value.0, HeaderMonth(h).value.1, h.section.value);
    }
  }

  /** The page fails exactly when some header that is read has a day row that raises. */
  lemma {:induction false} ScheduleFailsIff(hs: seq<MonthHeader>)
    ensures ScheduleGames(hs).Failure? <==> AnyHeaderRaises(hs)
  {
    if hs != [] {
      ScheduleFailsIff(hs[..|hs| - 1]);
      HeaderStepFails(hs[|hs| - 1]);
    }
  }

  /** A day whose text is not an integer adds nothing, wherever it stands. */
  lemma NonIntegerDaySkipped(y: nat, m: nat, days: seq<DayRow>, day: DayRow)
    requires day.dateText.Some? && ParsePyInt(Strip(day.dateText.value)).None?
    ensures DayGames(y, m, days + [day]) == DayGames(y, m, days)
  {
    assert (days + [day])[..|days|] == days;
    assert DayStep(y, m, day) == Success([]);
    if DayGames(y, m, days).Success? {
      assert DayGames(y, m, days).value + [] == DayGames(y, m, days).value;
    }
  }
}
