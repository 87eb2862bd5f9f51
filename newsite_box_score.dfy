/**
  * `parse_box_score` of the newer GameChanger scraper
  * (newsiteshitz/gcscraper/scrape_gc_schedules.py): `parse_int`, `parse_pitches_strikes`,
  * `extract_batting` and `extract_pitching`.  Grid rows and extra-stat lines arrive as the text
  * of the elements the scraper selects (None where an element is missing).  Name resolution
  * falls back to `difflib.get_close_matches`, which is a parameter here.
  *
  * Unlike the root scraper, this one SETS a count on the FIRST row whose name matches, and only
  * for 2B/3B/HR; StolenBases and TotalBases stay 0.
  */
module NewsiteBoxScore {
  import opened Wrappers
  import opened Text
  import opened NewsiteSchedule

  // ---------------------------------------------------------------------------
  // inputs and rows

  /** One `div[role="row"]` of a stats grid: the player-name span of column 1, its player-info span,
      and the texts of columns 2, 3, ... (None where a column's cell is missing). */
  datatype GridRow = GridRow(name: Option<string>, info: Option<string>, cols: seq<Option<string>>)

  /** One line of an extra-stats container: its semibold label and its player-stat spans. */
  datatype ExtraLine = ExtraLine(tag: Option<string>, stats: seq<string>)

  /** A lineup or pitching container: its grid rows, and the extra-stats sibling if there is one. */
  datatype TeamSection = TeamSection(rows: seq<GridRow>, extras: Option<seq<ExtraLine>>)

  /** The parts of a box-score page the scraper reads. */
  datatype BoxScorePage = BoxScorePage(
    awayName: Option<string>, homeName: Option<string>,
    awayBatting: Option<TeamSection>, homeBatting: Option<TeamSection>,
    awayPitching: Option<TeamSection>, homePitching: Option<TeamSection>)

  /** The values `extract_batting`/`extract_pitching` copy into every row of one side. */
  datatype SideInfo = SideInfo(gameId: string, teamId: string, teamName: string, side: Side, opponent: string)

  datatype BattingLine = BattingLine(
    info: SideInfo, playerName: string, position: string,
    ab: int, r: int, h: int, rbi: int, bb: int, so: int,
    doubles: int, triples: int, homeRuns: int, stolenBases: int, totalBases: int)

  datatype PitchingLine = PitchingLine(
    info: SideInfo, pitcherName: string, ip: string,
    hAllowed: int, rAllowed: int, erAllowed: int, bbAllowed: int, strikeouts: int,
    pitchesThrown: Option<int>, strikesThrown: Option<int>, battersFaced: Option<int>)

  // ---------------------------------------------------------------------------
  // parse_int and parse_pitches_strikes

  /** `parse_int(value)`: `int(value)`, or 0 wherever `int` raises.  The callers pass
      `text or 0`, and `int(0)` is 0 just as the empty text gives 0 here. */
  function ParseInt(value: string): (r: int)
    ensures ParsePyInt(value).Some? ==> r == ParsePyInt(value).value
    ensures ParsePyInt(value).None? ==> r == 0
  {
    ParsePyInt(value).GetOr(0)
  }

  lemma ParseIntOfString(n: int)
    ensures ParseInt(IntToString(n)) == n
  {
    ParsePyIntOfString(n);
  }

  /** Length of the run of digits that starts `s`. */
  function DigitRunLen(s: string): (n: nat)
    ensures n <= |s| && AllDigits(s[..n])
    ensures n < |s| ==> !IsDigit(s[n])
  {
    if s != [] && IsDigit(s[0]) then 1 + DigitRunLen(s[1..]) else 0
  }

  /** `(\d+)-(\d+)` matches at `j`: a digit there whose maximal digit run is followed by '-' and a
      digit.  A shorter digit run would be followed by a digit, not '-', so backtracking finds no
      other match at `j`. */
  predicate PairAt(t: string, j: nat)
  {
    j < |t| && IsDigit(t[j]) &&
    var e := j + DigitRunLen(t[j..]);
    e + 1 < |t| && t[e] == '-' && IsDigit(t[e + 1])
  }

  /** The leftmost position at or after `j` where the pattern matches (what `re.search` tries). */
  function FirstPairFrom(t: string, j: nat): (r: Option<nat>)
    ensures r.Some? ==> j <= r.value < |t| && PairAt(t, r.value)
    ensures r.Some? ==> forall i :: j <= i < r.value ==> !PairAt(t, i)
    ensures r.None? ==> forall i :: j <= i < |t| ==> !PairAt(t, i)
    decreases |t| - j
  {
    if j >= |t| then None
    else if PairAt(t, j) then Some(j)
    else FirstPairFrom(t, j + 1)
  }

  /** The maximal run of digits starting at `start`. */
  function DigitRun(t: string, start: nat): (r: string)
    requires start <= |t|
    ensures AllDigits(r) && |r| == DigitRunLen(t[start..]) && start + |r| <= |t|
    ensures forall k :: 0 <= k < |r| ==> r[k] == t[start + k]
  {
    var n := DigitRunLen(t[start..]);
    assert t[start..][..n] == t[start..start + n];
    t[start..start + n]
  }

  /** The two groups of the match at `j`, as numbers: the maximal digit runs before and after
      the '-'. */
  function PairValues(t: string, j: nat): (nat, nat)
    requires PairAt(t, j)
  {
    var first := DigitRun(t, j);
    (DigitsValue(first), DigitsValue(DigitRun(t, j + |first| + 1)))
  }

  /** The two groups of `re.search(r"(\d+)-(\d+)", t)`, as numbers. */
  function PitchPair(t: string): Option<(nat, nat)>
  {
    match FirstPairFrom(t, 0)
    case None => None
    case Some(j) => Some(PairValues(t, j))
  }

  /** `parse_pitches_strikes(count_str)`: strip, drop trailing commas, and take the first
      `<digits>-<digits>` pair; (None, None) without one. */
  function ParsePitchesStrikes(count: string): (r: (Option<int>, Option<int>))
    ensures r.0.Some? <==> r.1.Some?
    ensures r.0.Some? ==> r.0.value >= 0 && r.1.value >= 0
  {
    match PitchPair(TrimEnd(Strip(count), {','}))
    case None => (None, None)
    case Some((p, s)) => (Some(p), Some(s))
  }

  /** A digit directly followed by '-' and another digit somewhere in `t`. */
  predicate HasDigitDashDigit(t: string)
  {
    exists i :: 0 <= i && i + 2 < |t| && IsDigit(t[i]) && t[i + 1] == '-' && IsDigit(t[i + 2])
  }

  lemma PairAtGivesDigitDashDigit(t: string, j: nat)
    requires PairAt(t, j)
    ensures HasDigitDashDigit(t)
  {
    var n := DigitRunLen(t[j..]);
    var i := j + n - 1;
    assert t[i] == t[j..][..n][n - 1];
    assert IsDigit(t[i]) && t[i + 1] == '-' && IsDigit(t[i + 2]);
  }

  lemma DigitDashDigitIsPair(t: string, i: nat)
    requires i + 2 < |t| && IsDigit(t[i]) && t[i + 1] == '-' && IsDigit(t[i + 2])
    ensures PairAt(t, i)
  {
    assert t[i..][1] == '-';
    assert DigitRunLen(t[i..]) == 1;
  }

  /** The pattern finds a pair exactly when some digit is directly followed by '-' and a digit. */
  lemma PitchPairIff(t: string)
    ensures PitchPair(t).Some? <==> HasDigitDashDigit(t)
  {
    var first := FirstPairFrom(t, 0);
    assert PitchPair(t).Some? <==> first.Some?;
    if first.Some? {
      PairAtGivesDigitDashDigit(t, first.value);
    }
    if HasDigitDashDigit(t) {
      var i := SomeDigitDashDigit(t);
      DigitDashDigitIsPair(t, i);
      assert first.Some?;
    }
  }

  lemma SomeDigitDashDigit(t: string) returns (i: nat)
    requires HasDigitDashDigit(t)
    ensures i + 2 < |t| && IsDigit(t[i]) && t[i + 1] == '-' && IsDigit(t[i + 2])
  {
    i :| 0 <= i && i + 2 < |t| && IsDigit(t[i]) && t[i + 1] == '-' && IsDigit(t[i + 2]);
  }

  /** The maximal digit run of a digit string followed by a non-digit is that string. */
  lemma {:induction false} DigitRunLenOf(a: string, rest: string)
    requires AllDigits(a)
    requires rest == [] || !IsDigit(rest[0])
    ensures DigitRunLen(a + rest) == |a|
  {
    if a != [] {
      assert (a + rest)[1..] == a[1..] + rest;
      DigitRunLenOf(a[1..], rest);
    } else {
      assert a + rest == rest;
    }
  }

  lemma DigitRunIs(t: string, start: nat, m: nat, x: string)
    requires start <= |t| && DigitRunLen(t[start..]) == m && start + m <= |t| && t[start..start + m] == x
    ensures DigitRun(t, start) == x
  {
  }

  lemma PairValuesOf(a: string, b: string)
    requires a != [] && b != [] && AllDigits(a) && AllDigits(b)
    ensures PairAt(a + "-" + b, 0) && PairValues(a + "-" + b, 0) == (DigitsValue(a), DigitsValue(b))
  {
    var t := a + "-" + b;
    FirstRunOf(a, b);
    SecondRunOf(a, b);
    assert t[|a|] == '-' && t[|a| + 1] == b[0];
    PairFromRuns(t, 0, a, b);
  }

  lemma FirstRunOf(a: string, b: string)
    requires AllDigits(a)
    ensures DigitRun(a + "-" + b, 0) == a
  {
    var t := a + "-" + b;
    assert t[0..] == a + ("-" + b);
    DigitRunLenOf(a, "-" + b);
    assert t[0..|a|] == a;
    DigitRunIs(t, 0, |a|, a);
  }

  lemma SecondRunOf(a: string, b: string)
    requires AllDigits(b)
    ensures DigitRun(a + "-" + b, |a| + 1) == b
  {
    var t := a + "-" + b;
    assert t[|a| + 1..] == b + [];
    DigitRunLenOf(b, []);
    assert t[|a| + 1..|a| + 1 + |b|] == b;
    DigitRunIs(t, |a| + 1, |b|, b);
  }

  /** A digit run, '-', and a digit run starting with a digit form the pair of those runs. */
  lemma PairFromRuns(t: string, j: nat, x: string, y: string)
    requires j < |t| && DigitRun(t, j) == x && x != [] && y != []
    requires j + |x| + 1 <= |t| && t[j + |x|] == '-' && DigitRun(t, j + |x| + 1) == y
    ensures PairAt(t, j) && PairValues(t, j) == (DigitsValue(x), DigitsValue(y))
  {
    PairAtFromRuns(t, j, x, y);
  }

  lemma PairAtFromRuns(t: string, j: nat, x: string, y: string)
    requires j < |t| && DigitRun(t, j) == x && x != [] && y != []
    requires j + |x| + 1 <= |t| && t[j + |x|] == '-' && DigitRun(t, j + |x| + 1) == y
    ensures PairAt(t, j)
  {
    assert IsDigit(x[0]) && IsDigit(y[0]);
  }

  lemma PitchPairParts(a: string, b: string)
    requires a != [] && b != [] && AllDigits(a) && AllDigits(b)
    ensures PitchPair(a + "-" + b) == Some((DigitsValue(a), DigitsValue(b)))
  {
    PairValuesOf(a, b);
    assert FirstPairFrom(a + "-" + b, 0) == Some(0);
  }

  /** Stripping and dropping trailing commas leave a digit pair alone. */
  lemma CleanPairText(a: string, b: string, commas: string)
    requires a != [] && b != [] && AllDigits(a) && AllDigits(b) && AllIn(commas, {','})
    ensures TrimEnd(Strip(a + "-" + b + commas), {','}) == a + "-" + b
  {
    var t := a + "-" + b;
    var s := t + commas;
    assert s[0] == a[0];
    DigitNotSpace(a[0]);
    if commas != [] {
      assert s[|s| - 1] == commas[|commas| - 1];
      WhiteSpaceChar(s[|s| - 1]);
    } else {
      assert s == t;
      assert s[|s| - 1] == b[|b| - 1];
      DigitNotSpace(b[|b| - 1]);
    }
    TrimFixpoint(s, WhiteSpace);
    TrimEndPastTail(t, commas, {','});
    assert t[|t| - 1] == b[|b| - 1];
  }

  /** What the site writes, "74-50" possibly followed by commas, reads back as the two numbers. */
  lemma ParsePitchesStrikesOf(pitches: nat, strikes: nat, commas: string)
    requires AllIn(commas, {','})
    ensures ParsePitchesStrikes(NatToString(pitches) + "-" + NatToString(strikes) + commas)
      == (Some(pitches as int), Some(strikes as int))
  {
    var a := NatToString(pitches);
    var b := NatToString(strikes);
    CleanPairText(a, b, commas);
    PitchPairParts(a, b);
  }

  // ---------------------------------------------------------------------------
  // grid rows

  /** Columns 2..7 are all present; a missing one makes `select_one(...)` None and `get_text`
      raise, and the `except` drops the row. */
  predicate HasStatColumns(row: GridRow)
  {
    |row.cols| >= 6 && forall k :: 0 <= k < 6 ==> row.cols[k].Some?
  }

  /** The text of column `k + 2`, stripped. */
  function Col(row: GridRow, k: nat): string
    requires HasStatColumns(row) && k < 6
  {
    Strip(row.cols[k].value)
  }

  /** Extra stats start at zero; the pitch-count fields start unset. */
  predicate FreshBatting(b: BattingLine)
  {
    b.doubles == 0 && b.triples == 0 && b.homeRuns == 0 && b.stolenBases == 0 && b.totalBases == 0
  }

  predicate FreshPitching(p: PitchingLine)
  {
    p.pitchesThrown.None? && p.strikesThrown.None? && p.battersFaced.None?
  }

  /** The batting row one grid row yields, or None when it is skipped. */
  function BattingLineOf(info: SideInfo, row: GridRow): (r: Option<BattingLine>)
    ensures r.Some? <==> row.name.Some? && HasStatColumns(row)
    ensures r.Some? ==> r.value.info == info && FreshBatting(r.value)
    ensures r.Some? ==> r.value.playerName == Strip(row.name.value) && r.value.ab == ParseInt(Col(row, 0))
  {
    if row.name.None? || !HasStatColumns(row) then None
    else
      var pos := match row.info case None => "" case Some(t) => Trim(Strip(t), {'(', ')'});
      Some(BattingLine(info, Strip(row.name.value), pos,
        ParseInt(Col(row, 0)), ParseInt(Col(row, 1)), ParseInt(Col(row, 2)),
        ParseInt(Col(row, 3)), ParseInt(Col(row, 4)), ParseInt(Col(row, 5)),
        0, 0, 0, 0, 0))
  }

  /** The pitching row one grid row yields, or None when it is skipped.  IP is kept as text. */
  function PitchingLineOf(info: SideInfo, row: GridRow): (r: Option<PitchingLine>)
    ensures r.Some? <==> row.name.Some? && HasStatColumns(row)
    ensures r.Some? ==> r.value.info == info && FreshPitching(r.value)
    ensures r.Some? ==> r.value.pitcherName == Strip(row.name.value) && r.value.ip == Col(row, 0)
  {
    if row.name.None? || !HasStatColumns(row) then None
    else
      Some(PitchingLine(info, Strip(row.name.value), Col(row, 0),
        ParseInt(Col(row, 1)), ParseInt(Col(row, 2)), ParseInt(Col(row, 3)),
        ParseInt(Col(row, 4)), ParseInt(Col(row, 5)),
        None, None, None))
  }

  function BattingLines(info: SideInfo, rows: seq<GridRow>): seq<BattingLine>
  {
    if rows == [] then []
    else
      var last := BattingLineOf(info, rows[|rows| - 1]);
      BattingLines(info, rows[..|rows| - 1]) + (if last.Some? then [last.value] else [])
  }

  function PitchingLines(info: SideInfo, rows: seq<GridRow>): seq<PitchingLine>
  {
    if rows == [] then []
    else
      var last := PitchingLineOf(info, rows[|rows| - 1]);
      PitchingLines(info, rows[..|rows| - 1]) + (if last.Some? then [last.value] else [])
  }

  predicate AllFreshBatting(rows: seq<BattingLine>, info: SideInfo)
  {
    forall j :: 0 <= j < |rows| ==> rows[j].info == info && FreshBatting(rows[j])
  }

  predicate AllFreshPitching(rows: seq<PitchingLine>, info: SideInfo)
  {
    forall j :: 0 <= j < |rows| ==> rows[j].info == info && FreshPitching(rows[j])
  }

  lemma {:induction false} BattingLinesFresh(info: SideInfo, rows: seq<GridRow>)
    ensures AllFreshBatting(BattingLines(info, rows), info)
  {
    if rows != [] {
      BattingLinesFresh(info, rows[..|rows| - 1]);
    }
  }

  lemma {:induction false} PitchingLinesFresh(info: SideInfo, rows: seq<GridRow>)
    ensures AllFreshPitching(PitchingLines(info, rows), info)
  {
    if rows != [] {
      var init := PitchingLines(info, rows[..|rows| - 1]);
      var tail := PitchingTailFresh(info, rows[|rows| - 1]);
      PitchingLinesFresh(info, rows[..|rows| - 1]);
      assert PitchingLines(info, rows) == init + tail;
      FreshPitchingAppend(init, tail, info);
    }
  }

  lemma PitchingTailFresh(info: SideInfo, row: GridRow) returns (tail: seq<PitchingLine>)
    ensures tail == (var l := PitchingLineOf(info, row); if l.Some? then [l.value] else [])
    ensures AllFreshPitching(tail, info)
  {
    var l := PitchingLineOf(info, row);
    tail := if l.Some? then [l.value] else [];
  }

  lemma FreshPitchingAppend(a: seq<PitchingLine>, b: seq<PitchingLine>, info: SideInfo)
    requires AllFreshPitching(a, info) && AllFreshPitching(b, info)
    ensures AllFreshPitching(a + b, info)
  {
    forall j | 0 <= j < |a + b|
      ensures (a + b)[j].info == info && FreshPitching((a + b)[j])
    {
      if j < |a| {
        assert (a + b)[j] == a[j];
      } else {
        assert (a + b)[j] == b[j - |a|];
      }
    }
  }

  // ---------------------------------------------------------------------------
  // name resolution and the first matching row

  function BattingNames(rows: seq<BattingLine>): (r: seq<string>)
    ensures |r| == |rows| && forall j :: 0 <= j < |rows| ==> r[j] == rows[j].playerName
  {
    seq(|rows|, j requires 0 <= j < |rows| => rows[j].playerName)
  }

  function PitcherNames(rows: seq<PitchingLine>): (r: seq<string>)
    ensures |r| == |rows| && forall j :: 0 <= j < |rows| ==> r[j] == rows[j].pitcherName
  {
    seq(|rows|, j requires 0 <= j < |rows| => rows[j].pitcherName)
  }

  /** `difflib.get_close_matches(name, candidates, n=1, cutoff=0.6)`, reduced to its first
      element or None. */
  type CloseMatch = (string, seq<string>) -> Option<string>

  /** The matcher only ever proposes one of the candidates, as difflib does. */
  ghost predicate ProposesCandidates(closeMatch: CloseMatch)
  {
    forall name, cands :: closeMatch(name, cands).Some? ==> closeMatch(name, cands).value in cands
  }

  /** `player_match`: the name itself when it is a candidate, otherwise the close match; None
      when that is missing or empty (an empty match is falsy and the token is dropped). */
  function Resolve(raw: string, names: seq<string>, closeMatch: CloseMatch): (r: Option<string>)
    ensures raw in names && raw != [] ==> r == Some(raw)
    ensures raw !in names ==> r == (if closeMatch(raw, names).GetOr([]) == [] then None else closeMatch(raw, names))
    ensures r.Some? ==> r.value != []
    ensures ProposesCandidates(closeMatch) && r.Some? ==> r.value in names
  {
    var m := if raw in names then raw else closeMatch(raw, names).GetOr([]);
    if m == [] then None else Some(m)
  }

  /** The first index holding `x`. */
  function FirstIndex(xs: seq<string>, x: string): (r: Option<nat>)
    ensures r.Some? ==> r.value < |xs| && xs[r.value] == x && forall j :: 0 <= j < r.value ==> xs[j] != x
    ensures r.None? <==> x !in xs
  {
    if xs == [] then None
    else if xs[0] == x then Some(0)
    else
      var r := FirstIndex(xs[1..], x);
      assert forall j :: 1 <= j < |xs| ==> xs[j] == xs[1..][j - 1];
      if r.None? then None else Some(r.value + 1)
  }

  // ---------------------------------------------------------------------------
  // batting extra stats

  /** The count `bd[...] = stat_count` writes: 2B into Doubles, 3B into Triples, HR into
      HomeRuns; any other label writes nothing. */
  function SetBattingStat(b: BattingLine, tag: string, count: int): BattingLine
  {
    if tag == "2B" then b.(doubles := count)
    else if tag == "3B" then b.(triples := count)
    else if tag == "HR" then b.(homeRuns := count)
    else b
  }

  /** The inner `for bd in batting_stats` loop: only the first row with that name is written. */
  function SetFirstBatting(rows: seq<BattingLine>, name: string, tag: string, count: int): seq<BattingLine>
  {
    match FirstIndex(BattingNames(rows), name)
    case None => rows
    case Some(k) => rows[k := SetBattingStat(rows[k], tag, count)]
  }

  /** A batting stat token: the name part and the count text ("1" when there is none), or None
      where `re.match(r"(.+?)(?:\s+(\d+))?$", text)` finds nothing: for an empty token, and for
      one whose name part would have to hold a newline, which `.` does not match. */
  function BattingToken(span: string): Option<(string, string)>
  {
    var text := TrimEnd(Strip(span), {','});
    DigitsApart();
    if text == [] then None
    else
      match SplitTrailing(text, DigitChars, 1)
      case Some((head, digits)) => if '\n' in head then None else Some((Strip(head), digits))
      case None => if '\n' in text then None else Some((Strip(text), "1"))
  }

  /** A token that is already stripped and does not end in a comma is read as it stands. */
  lemma CleanToken(text: string)
    requires Trimmed(text, WhiteSpace) && (text == [] || text[|text| - 1] != ',')
    ensures TrimEnd(Strip(text), {','}) == text
  {
    TrimFixpoint(text, WhiteSpace);
  }

  /** "Name 2": the name and the count text. */
  lemma BattingTokenWithCount(name: string, digits: string)
    requires name != [] && Trimmed(name, WhiteSpace) && !IsDigit(name[|name| - 1]) && '\n' !in name
    requires digits != [] && AllDigits(digits)
    ensures BattingToken(name + " " + digits) == Some((name, digits))
  {
    var text := name + " " + digits;
    assert text[0] == name[0] && text[|text| - 1] == digits[|digits| - 1];
    CleanToken(text);
    AllDigitChars(digits);
    DigitsApart();
    SplitTrailingAfterHead(name, DigitChars, digits, 1);
    TrimFixpoint(name, WhiteSpace);
  }

  /** `.` does not match a newline, so a name part that holds one makes the match fail and the
      token is skipped. */
  lemma BattingTokenStopsAtNewline(name: string, digits: string)
    requires name != [] && Trimmed(name, WhiteSpace) && !IsDigit(name[|name| - 1]) && '\n' in name
    requires digits != [] && AllDigits(digits)
    ensures BattingToken(name + " " + digits) == None
  {
    var text := name + " " + digits;
    assert text[0] == name[0] && text[|text| - 1] == digits[|digits| - 1];
    CleanToken(text);
    AllDigitChars(digits);
    DigitsApart();
    SplitTrailingAfterHead(name, DigitChars, digits, 1);
  }

  /** The same holds without a count: the whole token would be the name part. */
  lemma BattingTokenNewlineNoCount(name: string)
    requires name != [] && Trimmed(name, WhiteSpace) && '\n' in name
    requires !IsDigit(name[|name| - 1]) && name[|name| - 1] != ','
    ensures BattingToken(name) == None
  {
    CleanToken(name);
    AllDigitChars([name[|name| - 1]]);
    DigitsApart();
    SplitTrailingNone(name, DigitChars, 1);
  }

  /** "Name" with no count: the count text defaults to "1". */
  lemma BattingTokenDefault(name: string)
    requires name != [] && Trimmed(name, WhiteSpace) && '\n' !in name
    requires !IsDigit(name[|name| - 1]) && name[|name| - 1] != ','
    ensures BattingToken(name) == Some((name, "1"))
  {
    CleanToken(name);
    AllDigitChars([name[|name| - 1]]);
    DigitsApart();
    SplitTrailingNone(name, DigitChars, 1);
    TrimFixpoint(name, WhiteSpace);
  }

  function ApplyBattingSpan(rows: seq<BattingLine>, tag: string, span: string, closeMatch: CloseMatch): seq<BattingLine>
  {
    match BattingToken(span)
    case None => rows
    case Some((raw, countText)) =>
      match Resolve(raw, BattingNames(rows), closeMatch)
      case None => rows
      case Some(m) => SetFirstBatting(rows, m, tag, ParseInt(countText))
  }

  function ApplyBattingSpans(rows: seq<BattingLine>, tag: string, spans: seq<string>, closeMatch: CloseMatch): seq<BattingLine>
  {
    if spans == [] then rows
    else ApplyBattingSpan(ApplyBattingSpans(rows, tag, spans[..|spans| - 1], closeMatch), tag, spans[|spans| - 1], closeMatch)
  }

  /** `stat_label`: the label text stripped, trailing colons removed. */
  function StatLabel(tag: string): string
  {
    TrimEnd(Strip(tag), {':'})
  }

  function ApplyBattingLine(rows: seq<BattingLine>, line: ExtraLine, closeMatch: CloseMatch): seq<BattingLine>
  {
    match line.tag
    case None => rows
    case Some(l) => ApplyBattingSpans(rows, StatLabel(l), line.stats, closeMatch)
  }

  function ApplyBattingLines(rows: seq<BattingLine>, lines: seq<ExtraLine>, closeMatch: CloseMatch): seq<BattingLine>
  {
    if lines == [] then rows
    else ApplyBattingLine(ApplyBattingLines(rows, lines[..|lines| - 1], closeMatch), lines[|lines| - 1], closeMatch)
  }

  /** The specification of `extract_batting`. */
  function ExtractedBatting(info: SideInfo, section: TeamSection, closeMatch: CloseMatch): seq<BattingLine>
  {
    var rows := BattingLines(info, section.rows);
    match section.extras
    case None => rows
    case Some(lines) => ApplyBattingLines(rows, lines, closeMatch)
  }

  // ---------------------------------------------------------------------------
  // pitching extra stats

  datatype PitchUpdate = PitchCounts(pitches: int, strikes: int) | BattersFacedCount(n: int)

  function SetPitchStat(p: PitchingLine, u: PitchUpdate): PitchingLine
  {
    match u
    case PitchCounts(ps, ss) => p.(pitchesThrown := Some(ps), strikesThrown := Some(ss))
    case BattersFacedCount(n) => p.(battersFaced := Some(n))
  }

  function SetFirstPitching(rows: seq<PitchingLine>, name: string, u: PitchUpdate): seq<PitchingLine>
  {
    match FirstIndex(PitcherNames(rows), name)
    case None => rows
    case Some(k) => rows[k := SetPitchStat(rows[k], u)]
  }

  const CountChars: set<char> := {'0', '1', '2', '3', '4', '5', '6', '7', '8', '9', '-'}

  lemma CountCharsApart()
    ensures CountChars !! WhiteSpace
  {
    forall c | c in CountChars ensures c !in WhiteSpace {
      WhiteSpaceChar(c);
    }
  }

  /** A pitching stat token, `re.match(r"(.+?)\s+([0-9\-]+)$", text)`: the name part and the
      count text, or None when the token has no trailing count or its name part would have to
      hold a newline. */
  function PitchingToken(span: string): Option<(string, string)>
  {
    var text := TrimEnd(Strip(span), {','});
    CountCharsApart();
    match SplitTrailing(text, CountChars, 1)
    case None => None
    case Some((head, count)) => if '\n' in head then None else Some((Strip(head), count))
  }

  /** A pitching name part that holds a newline makes the match fail, so the token is skipped. */
  lemma PitchingTokenStopsAtNewline(name: string, count: string)
    requires name != [] && Trimmed(name, WhiteSpace) && name[|name| - 1] !in CountChars && '\n' in name
    requires count != [] && AllIn(count, CountChars)
    ensures PitchingToken(name + " " + count) == None
  {
    var text := name + " " + count;
    assert text[0] == name[0] && text[|text| - 1] == count[|count| - 1];
    CleanToken(text);
    CountCharsApart();
    SplitTrailingAfterHead(name, CountChars, count, 1);
  }

  /** "Name 12-8": the name and the count text. */
  lemma PitchingTokenWithCount(name: string, count: string)
    requires name != [] && Trimmed(name, WhiteSpace) && name[|name| - 1] !in CountChars && '\n' !in name
    requires count != [] && AllIn(count, CountChars)
    ensures PitchingToken(name + " " + count) == Some((name, count))
  {
    var text := name + " " + count;
    assert text[0] == name[0] && text[|text| - 1] == count[|count| - 1];
    CleanToken(text);
    CountCharsApart();
    SplitTrailingAfterHead(name, CountChars, count, 1);
    TrimFixpoint(name, WhiteSpace);
  }

  /** A pitching token without a trailing count is dropped. */
  lemma PitchingTokenNeedsCount(text: string)
    requires Trimmed(text, WhiteSpace) && (text == [] || (text[|text| - 1] !in CountChars && text[|text| - 1] != ','))
    ensures PitchingToken(text) == None
  {
    CleanToken(text);
    CountCharsApart();
    SplitTrailingNone(text, CountChars, 1);
  }

  /** The update a label and count text ask for: both pitch counts when the pair parses, the
      batters faced when `int()` accepts the count, nothing otherwise. */
  function PitchUpdateOf(tag: string, countText: string): Option<PitchUpdate>
  {
    if tag == "Pitches-Strikes" then
      match ParsePitchesStrikes(countText)
      case (Some(ps), Some(ss)) => Some(PitchCounts(ps, ss))
      case _ => None
    else if tag == "Batters Faced" || tag == "BF" then
      match ParsePyInt(countText)
      case None => None
      case Some(n) => Some(BattersFacedCount(n))
    else None
  }

  function ApplyPitchingSpan(rows: seq<PitchingLine>, tag: string, span: string, closeMatch: CloseMatch): seq<PitchingLine>
  {
    match PitchingToken(span)
    case None => rows
    case Some((raw, countText)) =>
      match Resolve(raw, PitcherNames(rows), closeMatch)
      case None => rows
      case Some(m) =>
        match PitchUpdateOf(tag, countText)
        case None => rows
        case Some(u) => SetFirstPitching(rows, m, u)
  }

  function ApplyPitchingSpans(rows: seq<PitchingLine>, tag: string, spans: seq<string>, closeMatch: CloseMatch): seq<PitchingLine>
  {
    if spans == [] then rows
    else ApplyPitchingSpan(ApplyPitchingSpans(rows, tag, spans[..|spans| - 1], closeMatch), tag, spans[|spans| - 1], closeMatch)
  }

  function ApplyPitchingLine(rows: seq<PitchingLine>, line: ExtraLine, closeMatch: CloseMatch): seq<PitchingLine>
  {
    match line.tag
    case None => rows
    case Some(l) => ApplyPitchingSpans(rows, StatLabel(l), line.stats, closeMatch)
  }

  function ApplyPitchingLines(rows: seq<PitchingLine>, lines: seq<ExtraLine>, closeMatch: CloseMatch): seq<PitchingLine>
  {
    if lines == [] then rows
    else ApplyPitchingLine(ApplyPitchingLines(rows, lines[..|lines| - 1], closeMatch), lines[|lines| - 1], closeMatch)
  }

  /** The specification of `extract_pitching`. */
  function ExtractedPitching(info: SideInfo, section: TeamSection, closeMatch: CloseMatch): seq<PitchingLine>
  {
    var rows := PitchingLines(info, section.rows);
    match section.extras
    case None => rows
    case Some(lines) => ApplyPitchingLines(rows, lines, closeMatch)
  }

  // ---------------------------------------------------------------------------
  // parse_box_score

  /** The four lists `parse_box_score` returns. */
  datatype BoxScore = BoxScore(
    awayBatting: seq<BattingLine>, homeBatting: seq<BattingLine>,
    awayPitching: seq<PitchingLine>, homePitching: seq<PitchingLine>)

  /** Each side's row values: its own id and name, and the other side's name as opponent. */
  function AwayInfo(page: BoxScorePage, awayId: string, gameId: string): SideInfo
  {
    SideInfo(gameId, awayId, TextOr(page.awayName), Away, TextOr(page.homeName))
  }

  function HomeInfo(page: BoxScorePage, homeId: string, gameId: string): SideInfo
  {
    SideInfo(gameId, homeId, TextOr(page.homeName), Home, TextOr(page.awayName))
  }

  function BattingOf(info: SideInfo, section: Option<TeamSection>, closeMatch: CloseMatch): seq<BattingLine>
  {
    match section
    case None => []
    case Some(s) => ExtractedBatting(info, s, closeMatch)
  }

  function PitchingOf(info: SideInfo, section: Option<TeamSection>, closeMatch: CloseMatch): seq<PitchingLine>
  {
    match section
    case None => []
    case Some(s) => ExtractedPitching(info, s, closeMatch)
  }

  function BoxScoreOf(page: BoxScorePage, homeId: string, awayId: string, gameId: string, closeMatch: CloseMatch): BoxScore
  {
    var away := AwayInfo(page, awayId, gameId);
    var home := HomeInfo(page, homeId, gameId);
    BoxScore(
      BattingOf(away, page.awayBatting, closeMatch), BattingOf(home, page.homeBatting, closeMatch),
      PitchingOf(away, page.awayPitching, closeMatch), PitchingOf(home, page.homePitching, closeMatch))
  }
  // ---------------------------------------------------------------------------
  // the loops of extract_batting, extract_pitching and parse_box_score

  lemma FirstIndexAt(xs: seq<string>, x: string, k: nat)
    requires k < |xs| && xs[k] == x && forall j :: 0 <= j < k ==> xs[j] != x
    ensures FirstIndex(xs, x) == Some(k)
  {
    var r := FirstIndex(xs, x);
    assert r.Some?;
  }

  /** `for bd in batting_stats: if bd['PlayerName'] == player_match: ...; break`. */
  method SetFirstBattingRow(rows: seq<BattingLine>, name: string, tag: string, count: int) returns (out: seq<BattingLine>)
    ensures out == SetFirstBatting(rows, name, tag, count)
  {
    for k := 0 to |rows|
      invariant forall j :: 0 <= j < k ==> rows[j].playerName != name
    {
      if rows[k].playerName == name {
        FirstIndexAt(BattingNames(rows), name, k);
        return rows[k := SetBattingStat(rows[k], tag, count)];
      }
    }
    assert name !in BattingNames(rows);
    return rows;
  }

  method ApplyBattingSpanList(rows: seq<BattingLine>, tag: string, spans: seq<string>, closeMatch: CloseMatch)
    returns (out: seq<BattingLine>)
    ensures out == ApplyBattingSpans(rows, tag, spans, closeMatch)
  {
    out := rows;
    for i := 0 to |spans|
      invariant out == ApplyBattingSpans(rows, tag, spans[..i], closeMatch)
    {
      ApplyBattingSpansStep(rows, tag, spans, i, closeMatch);
      var token := BattingToken(spans[i]);
      if token.Some? {
        var m := Resolve(token.value.0, BattingNames(out), closeMatch);
        if m.Some? {
          out := SetFirstBattingRow(out, m.value, tag, ParseInt(token.value.1));
        }
      }
    }
    assert spans[..|spans|] == spans;
  }

  lemma ApplyBattingSpansStep(rows: seq<BattingLine>, tag: string, spans: seq<string>, i: nat, closeMatch: CloseMatch)
    requires i < |spans|
    ensures ApplyBattingSpans(rows, tag, spans[..i + 1], closeMatch) ==
            ApplyBattingSpan(ApplyBattingSpans(rows, tag, spans[..i], closeMatch), tag, spans[i], closeMatch)
  {
    assert spans[..i + 1][..i] == spans[..i];
  }

  lemma BattingLinesStep(info: SideInfo, rows: seq<GridRow>, i: nat)
    requires i < |rows|
    ensures BattingLines(info, rows[..i + 1]) == BattingLines(info, rows[..i]) + (var l := BattingLineOf(info, rows[i]); if l.Some? then [l.value] else [])
  {
    assert rows[..i + 1][..i] == rows[..i];
  }

  lemma ApplyBattingLinesStep(rows: seq<BattingLine>, lines: seq<ExtraLine>, i: nat, closeMatch: CloseMatch)
    requires i < |lines|
    ensures ApplyBattingLines(rows, lines[..i + 1], closeMatch) == ApplyBattingLine(ApplyBattingLines(rows, lines[..i], closeMatch), lines[i], closeMatch)
  {
    assert lines[..i + 1][..i] == lines[..i];
  }

  method ApplyBattingLineList(rows: seq<BattingLine>, lines: seq<ExtraLine>, closeMatch: CloseMatch)
    returns (out: seq<BattingLine>)
    ensures out == ApplyBattingLines(rows, lines, closeMatch)
  {
    out := rows;
    for i := 0 to |lines|
      invariant out == ApplyBattingLines(rows, lines[..i], closeMatch)
    {
      ApplyBattingLinesStep(rows, lines, i, closeMatch);
      if lines[i].tag.Some? {
        out := ApplyBattingSpanList(out, StatLabel(lines[i].tag.value), lines[i].stats, closeMatch);
      }
    }
    assert lines[..|lines|] == lines;
  }

  /** `extract_batting`: one row per readable grid row, then the extra-stat lines. */
  method ExtractBatting(info: SideInfo, section: TeamSection, closeMatch: CloseMatch) returns (rows: seq<BattingLine>)
    ensures rows == ExtractedBatting(info, section, closeMatch)
  {
    rows := [];
    for i := 0 to |section.rows|
      invariant rows == BattingLines(info, section.rows[..i])
    {
      BattingLinesStep(info, section.rows, i);
      var line := BattingLineOf(info, section.rows[i]);
      if line.Some? {
        rows := rows + [line.value];
      }
    }
    assert section.rows[..|section.rows|] == section.rows;
    if section.extras.Some? {
      rows := ApplyBattingLineList(rows, section.extras.value, closeMatch);
    }
  }

  method SetFirstPitchingRow(rows: seq<PitchingLine>, name: string, u: PitchUpdate) returns (out: seq<PitchingLine>)
    ensures out == SetFirstPitching(rows, name, u)
  {
    for k := 0 to |rows|
      invariant forall j :: 0 <= j < k ==> rows[j].pitcherName != name
    {
      if rows[k].pitcherName == name {
        FirstIndexAt(PitcherNames(rows), name, k);
        return rows[k := SetPitchStat(rows[k], u)];
      }
    }
    assert name !in PitcherNames(rows);
    return rows;
  }

  method ApplyPitchingSpanList(rows: seq<PitchingLine>, tag: string, spans: seq<string>, closeMatch: CloseMatch)
    returns (out: seq<PitchingLine>)
    ensures out == ApplyPitchingSpans(rows, tag, spans, closeMatch)
  {
    out := rows;
    for i := 0 to |spans|
      invariant out == ApplyPitchingSpans(rows, tag, spans[..i], closeMatch)
    {
      ApplyPitchingSpansStep(rows, tag, spans, i, closeMatch);
      var token := PitchingToken(spans[i]);
      if token.Some? {
        var m := Resolve(token.value.0, PitcherNames(out), closeMatch);
        if m.Some? {
          var u := PitchUpdateOf(tag, token.value.1);
          if u.Some? {
            out := SetFirstPitchingRow(out, m.value, u.value);
          }
        }
      }
    }
    assert spans[..|spans|] == spans;
  }

  lemma ApplyPitchingSpansStep(rows: seq<PitchingLine>, tag: string, spans: seq<string>, i: nat, closeMatch: CloseMatch)
    requires i < |spans|
    ensures ApplyPitchingSpans(rows, tag, spans[..i + 1], closeMatch) ==
            ApplyPitchingSpan(ApplyPitchingSpans(rows, tag, spans[..i], closeMatch), tag, spans[i], closeMatch)
  {
    assert spans[..i + 1][..i] == spans[..i];
  }

  lemma PitchingLinesStep(info: SideInfo, rows: seq<GridRow>, i: nat)
    requires i < |rows|
    ensures PitchingLines(info, rows[..i + 1]) == PitchingLines(info, rows[..i]) + (var l := PitchingLineOf(info, rows[i]); if l.Some? then [l.value] else [])
  {
    assert rows[..i + 1][..i] == rows[..i];
  }

  lemma ApplyPitchingLinesStep(rows: seq<PitchingLine>, lines: seq<ExtraLine>, i: nat, closeMatch: CloseMatch)
    requires i < |lines|
    ensures ApplyPitchingLines(rows, lines[..i + 1], closeMatch) == ApplyPitchingLine(ApplyPitchingLines(rows, lines[..i], closeMatch), lines[i], closeMatch)
  {
    assert lines[..i + 1][..i] == lines[..i];
  }

  method ApplyPitchingLineList(rows: seq<PitchingLine>, lines: seq<ExtraLine>, closeMatch: CloseMatch)
    returns (out: seq<PitchingLine>)
    ensures out == ApplyPitchingLines(rows, lines, closeMatch)
  {
    out := rows;
    for i := 0 to |lines|
      invariant out == ApplyPitchingLines(rows, lines[..i], closeMatch)
    {
      ApplyPitchingLinesStep(rows, lines, i, closeMatch);
      if lines[i].tag.Some? {
        out := ApplyPitchingSpanList(out, StatLabel(lines[i].tag.value), lines[i].stats, closeMatch);
      }
    }
    assert lines[..|lines|] == lines;
  }

  /** `extract_pitching`: one row per readable grid row, then the extra-stat lines. */
  method ExtractPitching(info: SideInfo, section: TeamSection, closeMatch: CloseMatch) returns (rows: seq<PitchingLine>)
    ensures rows == ExtractedPitching(info, section, closeMatch)
  {
    rows := [];
    for i := 0 to |section.rows|
      invariant rows == PitchingLines(info, section.rows[..i])
    {
      PitchingLinesStep(info, section.rows, i);
      var line := PitchingLineOf(info, section.rows[i]);
      if line.Some? {
        rows := rows + [line.value];
      }
    }
    assert section.rows[..|section.rows|] == section.rows;
    if section.extras.Some? {
      rows := ApplyPitchingLineList(rows, section.extras.value, closeMatch);
    }
  }

  /** `parse_box_score`: the away and home lineups and pitching tables, each with its side's id,
      name and flag and the other side's name as opponent; a missing container gives []. */
  method ParseBoxScore(page: BoxScorePage, homeId: string, awayId: string, gameId: string, closeMatch: CloseMatch)
    returns (bs: BoxScore)
    ensures bs == BoxScoreOf(page, homeId, awayId, gameId, closeMatch)
  {
    var away := AwayInfo(page, awayId, gameId);
    var home := HomeInfo(page, homeId, gameId);
    var awayBatting: seq<BattingLine> := [];
    if page.awayBatting.Some? {
      awayBatting := ExtractBatting(away, page.awayBatting.value, closeMatch);
    }
    var homeBatting: seq<BattingLine> := [];
    if page.homeBatting.Some? {
      homeBatting := ExtractBatting(home, page.homeBatting.value, closeMatch);
    }
    var awayPitching: seq<PitchingLine> := [];
    if page.awayPitching.Some? {
      awayPitching := ExtractPitching(away, page.awayPitching.value, closeMatch);
    }
    var homePitching: seq<PitchingLine> := [];
    if page.homePitching.Some? {
      homePitching := ExtractPitching(home, page.homePitching.value, closeMatch);
    }
    bs := BoxScore(awayBatting, homeBatting, awayPitching, homePitching);
  }
  // ---------------------------------------------------------------------------
  // what the extra-stat lines change and what they leave alone

  /** A batting row without the three fields the extra lines write. */
  function BattingCore(b: BattingLine): BattingLine
  {
    b.(doubles := 0, triples := 0, homeRuns := 0)
  }

  function BattingCores(rows: seq<BattingLine>): (r: seq<BattingLine>)
    ensures |r| == |rows| && forall j :: 0 <= j < |rows| ==> r[j] == BattingCore(rows[j])
  {
    seq(|rows|, j requires 0 <= j < |rows| => BattingCore(rows[j]))
  }

  /** Only the first row carrying the name is written; every other row is left as it was. */
  lemma SetFirstBattingEffect(rows: seq<BattingLine>, name: string, tag: string, count: int)
    ensures var out := SetFirstBatting(rows, name, tag, count);
      |out| == |rows| &&
      (forall j :: 0 <= j < |rows| && rows[j].playerName != name ==> out[j] == rows[j]) &&
      (forall i, j :: 0 <= i < j < |rows| && rows[i].playerName == name ==> out[j] == rows[j]) &&
      (forall j :: 0 <= j < |rows| && rows[j].playerName == name && (forall i :: 0 <= i < j ==> rows[i].playerName != name) ==>
         out[j] == SetBattingStat(rows[j], tag, count))
  {
    var names := BattingNames(rows);
    var f := FirstIndex(names, name);
    if f.Some? {
      var k := f.value;
      forall j | 0 <= j < |rows| && rows[j].playerName == name && (forall i :: 0 <= i < j ==> rows[i].playerName != name)
        ensures j == k
      {
        assert names[j] == name && names[k] == name;
      }
      forall i | 0 <= i < |rows| && rows[i].playerName == name
        ensures k <= i
      {
        assert names[i] == name;
      }
    } else {
      forall j | 0 <= j < |rows|
        ensures rows[j].playerName != name
      {
        assert names[j] == rows[j].playerName;
      }
    }
  }

  /** Setting a count is an assignment: writing the same label again for the same name keeps
      only the later count. */
  lemma SetFirstBattingOverwrites(rows: seq<BattingLine>, name: string, tag: string, c1: int, c2: int)
    ensures SetFirstBatting(SetFirstBatting(rows, name, tag, c1), name, tag, c2) == SetFirstBatting(rows, name, tag, c2)
  {
    var mid := SetFirstBatting(rows, name, tag, c1);
    SetFirstBattingCores(rows, name, tag, c1);
    assert BattingNames(mid) == BattingNames(rows) by {
      forall j | 0 <= j < |rows| ensures mid[j].playerName == rows[j].playerName {
        assert BattingCores(mid)[j] == BattingCores(rows)[j];
      }
    }
  }

  lemma SetFirstBattingCores(rows: seq<BattingLine>, name: string, tag: string, count: int)
    ensures BattingCores(SetFirstBatting(rows, name, tag, count)) == BattingCores(rows)
  {
    var out := SetFirstBatting(rows, name, tag, count);
    match FirstIndex(BattingNames(rows), name)
    case None =>
    case Some(k) =>
      assert BattingCore(out[k]) == BattingCore(rows[k]);
      assert forall j :: 0 <= j < |rows| ==> BattingCores(out)[j] == BattingCores(rows)[j];
  }

  lemma {:induction false} ApplyBattingSpansCores(rows: seq<BattingLine>, tag: string, spans: seq<string>, closeMatch: CloseMatch)
    ensures BattingCores(ApplyBattingSpans(rows, tag, spans, closeMatch)) == BattingCores(rows)
    decreases |spans|
  {
    if spans != [] {
      var prev := ApplyBattingSpans(rows, tag, spans[..|spans| - 1], closeMatch);
      ApplyBattingSpansCores(rows, tag, spans[..|spans| - 1], closeMatch);
      match BattingToken(spans[|spans| - 1])
      case None =>
      case Some((raw, countText)) =>
        match Resolve(raw, BattingNames(prev), closeMatch)
        case None =>
        case Some(m) => SetFirstBattingCores(prev, m, tag, ParseInt(countText));
    }
  }

  lemma {:induction false} ApplyBattingLinesCores(rows: seq<BattingLine>, lines: seq<ExtraLine>, closeMatch: CloseMatch)
    ensures BattingCores(ApplyBattingLines(rows, lines, closeMatch)) == BattingCores(rows)
    decreases |lines|
  {
    if lines != [] {
      var prev := ApplyBattingLines(rows, lines[..|lines| - 1], closeMatch);
      ApplyBattingLinesCores(rows, lines[..|lines| - 1], closeMatch);
      var line := lines[|lines| - 1];
      if line.tag.Some? {
        ApplyBattingSpansCores(prev, StatLabel(line.tag.value), line.stats, closeMatch);
      }
    }
  }

  /** The extra lines change nothing but the 2B, 3B and HR counts: the rows, their order, names,
      positions, side values and grid stats are those of the grid, and the stolen bases and total
      bases stay 0. */
  lemma ExtractedBattingKeepsGrid(info: SideInfo, section: TeamSection, closeMatch: CloseMatch)
    ensures var grid := BattingLines(info, section.rows);
            var out := ExtractedBatting(info, section, closeMatch);
      BattingCores(out) == BattingCores(grid) &&
      forall j :: 0 <= j < |out| ==> out[j].info == info && out[j].stolenBases == 0 && out[j].totalBases == 0
  {
    var grid := BattingLines(info, section.rows);
    var out := ExtractedBatting(info, section, closeMatch);
    BattingLinesFresh(info, section.rows);
    if section.extras.Some? {
      ApplyBattingLinesCores(grid, section.extras.value, closeMatch);
    }
    forall j | 0 <= j < |out| ensures out[j].info == info && out[j].stolenBases == 0 && out[j].totalBases == 0 {
      assert BattingCores(out)[j] == BattingCores(grid)[j];
    }
  }

  /** A label other than 2B, 3B or HR changes no row. */
  lemma {:induction false} UnknownBattingLabel(rows: seq<BattingLine>, tag: string, spans: seq<string>, closeMatch: CloseMatch)
    requires tag != "2B" && tag != "3B" && tag != "HR"
    ensures ApplyBattingSpans(rows, tag, spans, closeMatch) == rows
    decreases |spans|
  {
    if spans != [] {
      var prev := ApplyBattingSpans(rows, tag, spans[..|spans| - 1], closeMatch);
      UnknownBattingLabel(rows, tag, spans[..|spans| - 1], closeMatch);
      match BattingToken(spans[|spans| - 1])
      case None =>
      case Some((raw, countText)) =>
        match Resolve(raw, BattingNames(prev), closeMatch)
        case None =>
        case Some(m) => SetFirstBattingUnknown(prev, m, tag, ParseInt(countText));
    }
  }

  lemma SetFirstBattingUnknown(rows: seq<BattingLine>, name: string, tag: string, count: int)
    requires tag != "2B" && tag != "3B" && tag != "HR"
    ensures SetFirstBatting(rows, name, tag, count) == rows
  {
    match FirstIndex(BattingNames(rows), name)
    case None =>
    case Some(k) => assert rows[k := rows[k]] == rows;
  }

  /** "HR: Name": a bare name in the HR line counts as one home run for that player. */
  lemma HomeRunWithoutCount(rows: seq<BattingLine>, name: string, closeMatch: CloseMatch)
    requires name != [] && Trimmed(name, WhiteSpace) && !IsDigit(name[|name| - 1]) && name[|name| - 1] != ','
    requires '\n' !in name
    requires name in BattingNames(rows)
    ensures ApplyBattingLine(rows, ExtraLine(Some("HR:"), [name]), closeMatch) == SetFirstBatting(rows, name, "HR", 1)
  {
    HomeRunLabel();
    DefaultCount();
    BattingTokenDefault(name);
    ApplyBattingSpanOf(rows, "HR", name, closeMatch, name, "1", name);
    SingleSpan(rows, "HR", name, closeMatch);
  }

  lemma HomeRunLabel()
    ensures StatLabel("HR:") == "HR"
  {
    assert Trimmed("HR:", WhiteSpace);
    TrimFixpoint("HR:", WhiteSpace);
    assert TrimEnd("HR", {':'}) == "HR";
  }

  lemma DefaultCount()
    ensures ParseInt("1") == 1
  {
    ParsePyIntDigits("1");
  }

  lemma SingleSpan(rows: seq<BattingLine>, tag: string, span: string, closeMatch: CloseMatch)
    ensures ApplyBattingSpans(rows, tag, [span], closeMatch) == ApplyBattingSpan(rows, tag, span, closeMatch)
  {
    assert [span][..0] == [];
  }

  /** One batting span, once its token, name and count are known. */
  lemma ApplyBattingSpanOf(rows: seq<BattingLine>, tag: string, span: string, closeMatch: CloseMatch,
                           raw: string, countText: string, m: string)
    requires BattingToken(span) == Some((raw, countText))
    requires Resolve(raw, BattingNames(rows), closeMatch) == Some(m)
    ensures ApplyBattingSpan(rows, tag, span, closeMatch) == SetFirstBatting(rows, m, tag, ParseInt(countText))
  {
  }

  /** "2B: Name 2": the count after the name is the doubles written. */
  lemma DoublesWithCount(rows: seq<BattingLine>, name: string, n: nat, closeMatch: CloseMatch)
    requires name != [] && Trimmed(name, WhiteSpace) && !IsDigit(name[|name| - 1]) && '\n' !in name
    requires name in BattingNames(rows)
    ensures ApplyBattingSpan(rows, "2B", name + " " + NatToString(n), closeMatch) == SetFirstBatting(rows, name, "2B", n)
  {
    BattingTokenWithCount(name, NatToString(n));
    ParseIntOfString(n);
    assert Resolve(name, BattingNames(rows), closeMatch) == Some(name);
    ApplyBattingSpanOf(rows, "2B", name + " " + NatToString(n), closeMatch, name, NatToString(n), name);
  }

  /** A pitching row without the three fields the extra lines write. */
  function PitchingCore(p: PitchingLine): PitchingLine
  {
    p.(pitchesThrown := None, strikesThrown := None, battersFaced := None)
  }

  function PitchingCores(rows: seq<PitchingLine>): (r: seq<PitchingLine>)
    ensures |r| == |rows| && forall j :: 0 <= j < |rows| ==> r[j] == PitchingCore(rows[j])
  {
    seq(|rows|, j requires 0 <= j < |rows| => PitchingCore(rows[j]))
  }

  /** The pitch and strike counts are written together, never one without the other. */
  predicate CountsPaired(rows: seq<PitchingLine>)
  {
    forall j :: 0 <= j < |rows| ==> (rows[j].pitchesThrown.Some? <==> rows[j].strikesThrown.Some?)
  }

  lemma SetFirstPitchingKeeps(rows: seq<PitchingLine>, name: string, u: PitchUpdate)
    requires CountsPaired(rows)
    ensures var out := SetFirstPitching(rows, name, u);
      PitchingCores(out) == PitchingCores(rows) && CountsPaired(out)
  {
    var out := SetFirstPitching(rows, name, u);
    match FirstIndex(PitcherNames(rows), name)
    case None =>
    case Some(k) =>
      assert PitchingCore(out[k]) == PitchingCore(rows[k]);
      assert forall j :: 0 <= j < |rows| ==> PitchingCores(out)[j] == PitchingCores(rows)[j];
  }

  lemma {:induction false} ApplyPitchingSpansKeeps(rows: seq<PitchingLine>, tag: string, spans: seq<string>, closeMatch: CloseMatch)
    requires CountsPaired(rows)
    ensures var out := ApplyPitchingSpans(rows, tag, spans, closeMatch);
      PitchingCores(out) == PitchingCores(rows) && CountsPaired(out)
    decreases |spans|
  {
    if spans != [] {
      var prev := ApplyPitchingSpans(rows, tag, spans[..|spans| - 1], closeMatch);
      ApplyPitchingSpansKeeps(rows, tag, spans[..|spans| - 1], closeMatch);
      match PitchingToken(spans[|spans| - 1])
      case None =>
      case Some((raw, countText)) =>
        match Resolve(raw, PitcherNames(prev), closeMatch)
        case None =>
        case Some(m) =>
          match PitchUpdateOf(tag, countText)
          case None =>
          case Some(u) => SetFirstPitchingKeeps(prev, m, u);
    }
  }

  lemma {:induction false} ApplyPitchingLinesKeeps(rows: seq<PitchingLine>, lines: seq<ExtraLine>, closeMatch: CloseMatch)
    requires CountsPaired(rows)
    ensures var out := ApplyPitchingLines(rows, lines, closeMatch);
      PitchingCores(out) == PitchingCores(rows) && CountsPaired(out)
    decreases |lines|
  {
    if lines != [] {
      var prev := ApplyPitchingLines(rows, lines[..|lines| - 1], closeMatch);
      ApplyPitchingLinesKeeps(rows, lines[..|lines| - 1], closeMatch);
      var line := lines[|lines| - 1];
      if line.tag.Some? {
        ApplyPitchingSpansKeeps(prev, StatLabel(line.tag.value), line.stats, closeMatch);
      }
    }
  }

  /** The extra lines change nothing but the pitch counts and batters faced, and every pitcher
      either has both Pitches and Strikes or neither. */
  lemma ExtractedPitchingKeepsGrid(info: SideInfo, section: TeamSection, closeMatch: CloseMatch)
    ensures var grid := PitchingLines(info, section.rows);
            var out := ExtractedPitching(info, section, closeMatch);
      PitchingCores(out) == PitchingCores(grid) && CountsPaired(out) &&
      forall j :: 0 <= j < |out| ==> out[j].info == info
  {
    var grid := PitchingLines(info, section.rows);
    var out := ExtractedPitching(info, section, closeMatch);
    PitchingLinesFresh(info, section.rows);
    if section.extras.Some? {
      ApplyPitchingLinesKeeps(grid, section.extras.value, closeMatch);
    }
    forall j | 0 <= j < |out| ensures out[j].info == info {
      assert PitchingCores(out)[j] == PitchingCores(grid)[j];
    }
  }

  /** A label other than Pitches-Strikes, Batters Faced or BF changes no row. */
  lemma {:induction false} UnknownPitchingLabel(rows: seq<PitchingLine>, tag: string, spans: seq<string>, closeMatch: CloseMatch)
    requires tag != "Pitches-Strikes" && tag != "Batters Faced" && tag != "BF"
    ensures ApplyPitchingSpans(rows, tag, spans, closeMatch) == rows
  {
    if spans != [] {
      UnknownPitchingLabel(rows, tag, spans[..|spans| - 1], closeMatch);
    }
  }

  /** One pitching span, once its token, name and update are known. */
  lemma ApplyPitchingSpanOf(rows: seq<PitchingLine>, tag: string, span: string, closeMatch: CloseMatch,
                            raw: string, countText: string, m: string, u: PitchUpdate)
    requires PitchingToken(span) == Some((raw, countText))
    requires Resolve(raw, PitcherNames(rows), closeMatch) == Some(m)
    requires PitchUpdateOf(tag, countText) == Some(u)
    ensures ApplyPitchingSpan(rows, tag, span, closeMatch) == SetFirstPitching(rows, m, u)
  {
  }

  lemma PairTokenText(name: string, a: string, b: string)
    requires name != [] && Trimmed(name, WhiteSpace) && name[|name| - 1] !in CountChars
    requires '\n' !in name
    requires a != [] && b != [] && AllDigits(a) && AllDigits(b)
    ensures PitchingToken(name + " " + (a + "-" + b)) == Some((name, a + "-" + b))
  {
    AllDigitChars(a);
    AllDigitChars(b);
    assert AllIn(a + "-" + b, CountChars);
    PitchingTokenWithCount(name, a + "-" + b);
  }

  lemma PairUpdate(a: string, b: string)
    requires a != [] && b != [] && AllDigits(a) && AllDigits(b)
    ensures PitchUpdateOf("Pitches-Strikes", a + "-" + b) == Some(PitchCounts(DigitsValue(a), DigitsValue(b)))
  {
    CleanPairText(a, b, "");
    assert a + "-" + b + "" == a + "-" + b;
    PitchPairParts(a, b);
  }

  /** "Name 40-25" in the Pitches-Strikes line sets both counts. */
  lemma PitchesStrikesOfToken(rows: seq<PitchingLine>, name: string, a: string, b: string, closeMatch: CloseMatch)
    requires name != [] && Trimmed(name, WhiteSpace) && name[|name| - 1] !in CountChars && '\n' !in name
    requires a != [] && b != [] && AllDigits(a) && AllDigits(b)
    requires name in PitcherNames(rows)
    ensures ApplyPitchingSpan(rows, "Pitches-Strikes", name + " " + (a + "-" + b), closeMatch)
         == SetFirstPitching(rows, name, PitchCounts(DigitsValue(a), DigitsValue(b)))
  {
    var count := a + "-" + b;
    PairTokenText(name, a, b);
    PairUpdate(a, b);
    ApplyPitchingSpanOf(rows, "Pitches-Strikes", name + " " + count, closeMatch, name, count, name, PitchCounts(DigitsValue(a), DigitsValue(b)));
  }

  /** "BF: Name 12" sets the batters faced. */
  lemma BattersFacedOfToken(rows: seq<PitchingLine>, name: string, n: nat, closeMatch: CloseMatch)
    requires name != [] && Trimmed(name, WhiteSpace) && name[|name| - 1] !in CountChars && '\n' !in name
    requires name in PitcherNames(rows)
    ensures ApplyPitchingSpan(rows, "BF", name + " " + NatToString(n), closeMatch)
         == SetFirstPitching(rows, name, BattersFacedCount(n))
  {
    var ds := NatToString(n);
    DigitsAreCountChars(ds);
    PitchingTokenWithCount(name, ds);
    BattersFacedUpdate(n);
    assert Resolve(name, PitcherNames(rows), closeMatch) == Some(name);
    ApplyPitchingSpanOf(rows, "BF", name + " " + ds, closeMatch, name, ds, name, BattersFacedCount(n));
  }

  lemma DigitsAreCountChars(s: string)
    requires AllDigits(s)
    ensures AllIn(s, CountChars)
  {
    AllDigitChars(s);
  }

  /** The BF count text of a number sets that many batters faced. */
  lemma BattersFacedUpdate(n: nat)
    ensures PitchUpdateOf("BF", NatToString(n)) == Some(BattersFacedCount(n))
  {
    assert "BF" != "Pitches-Strikes" by { assert |"BF"| != |"Pitches-Strikes"|; }
    ParsePyIntDigits(NatToString(n));
  }

  /** Every row of each side's tables carries that side's id, name and flag, with the other
      side's name as opponent. */
  lemma BoxScoreSides(page: BoxScorePage, homeId: string, awayId: string, gameId: string, closeMatch: CloseMatch)
    ensures var bs := BoxScoreOf(page, homeId, awayId, gameId, closeMatch);
      (forall j :: 0 <= j < |bs.awayBatting| ==> bs.awayBatting[j].info == SideInfo(gameId, awayId, TextOr(page.awayName), Away, TextOr(page.homeName))) &&
      (forall j :: 0 <= j < |bs.homeBatting| ==> bs.homeBatting[j].info == SideInfo(gameId, homeId, TextOr(page.homeName), Home, TextOr(page.awayName))) &&
      (forall j :: 0 <= j < |bs.awayPitching| ==> bs.awayPitching[j].info == SideInfo(gameId, awayId, TextOr(page.awayName), Away, TextOr(page.homeName))) &&
      (forall j :: 0 <= j < |bs.homePitching| ==> bs.homePitching[j].info == SideInfo(gameId, homeId, TextOr(page.homeName), Home, TextOr(page.awayName)))
  {
    var away := AwayInfo(page, awayId, gameId);
    var home := HomeInfo(page, homeId, gameId);
    if page.awayBatting.Some? { ExtractedBattingKeepsGrid(away, page.awayBatting.value, closeMatch); }
    if page.homeBatting.Some? { ExtractedBattingKeepsGrid(home, page.homeBatting.value, closeMatch); }
    if page.awayPitching.Some? { ExtractedPitchingKeepsGrid(away, page.awayPitching.value, closeMatch); }
    if page.homePitching.Some? { ExtractedPitchingKeepsGrid(home, page.homePitching.value, closeMatch); }
  }
}
