/**
  * scrape_gc_schedules.py: grid-row classification of `parse_box_score` and the extra-stats merge of
  * `apply_extra_stats_from_summary`.
  */
module GcBoxScore {
  import opened Wrappers
  import opened Text
  import opened GcText

  /** One batting line of a box score: Player | AB | R | H | RBI | BB | SO | 2B | 3B | HR | SB | TB. */
  datatype BattingRow = BattingRow(
    playerName: string, ab: int, runs: int, hits: int, rbi: int, walks: int, strikeouts: int,
    doubles: int, triples: int, homeRuns: int, stolenBases: int, totalBases: int)

  /** One pitching line: Pitcher | IP | H | R | ER | BB | SO, then optional Pitches | Strikes | BF. */
  datatype PitchingRow = PitchingRow(
    pitcherName: string, ip: string, hAllowed: int, rAllowed: int, erAllowed: int, bbAllowed: int,
    strikeouts: int, pitchesThrown: Option<int>, strikesThrown: Option<int>, battersFaced: Option<int>)

  /** The batting columns the extra-stats panel can add to. */
  datatype StatField = Doubles | Triples | HomeRuns | StolenBases | TotalBases

  function FieldValue(row: BattingRow, f: StatField): int
  {
    match f
    case Doubles => row.doubles
    case Triples => row.triples
    case HomeRuns => row.homeRuns
    case StolenBases => row.stolenBases
    case TotalBases => row.totalBases
  }

  /** The name and the seven columns the extra-stats panel never touches agree. */
  predicate SameBase(a: BattingRow, b: BattingRow)
  {
    a.playerName == b.playerName && a.ab == b.ab && a.runs == b.runs && a.hits == b.hits &&
    a.rbi == b.rbi && a.walks == b.walks && a.strikeouts == b.strikeouts
  }

  /** `row[field] = (row.get(field) or 0) + count` (every column of a parsed row holds an int). */
  function AddToField(row: BattingRow, f: StatField, count: int): (r: BattingRow)
    ensures FieldValue(r, f) == FieldValue(row, f) + count
    ensures forall g :: g != f ==> FieldValue(r, g) == FieldValue(row, g)
    ensures SameBase(r, row)
  {
    match f
    case Doubles => row.(doubles := row.doubles + count)
    case Triples => row.(triples := row.triples + count)
    case HomeRuns => row.(homeRuns := row.homeRuns + count)
    case StolenBases => row.(stolenBases := row.stolenBases + count)
    case TotalBases => row.(totalBases := row.totalBases + count)
  }

  // ---------------------------------------------------------------------------
  // Row building and classification in parse_box_score

  /** `to_int(cells[k]) if len(cells) > k else 0`. */
  function IntCell(cells: seq<string>, k: nat): int
  {
    if k < |cells| then ToInt(Some(cells[k])) else 0
  }

  /** `to_int(cells[k]) if len(cells) > k else None`. */
  function OptIntCell(cells: seq<string>, k: nat): (r: Option<int>)
    ensures r.None? <==> |cells| <= k
  {
    if k < |cells| then Some(ToInt(Some(cells[k]))) else None
  }

  function BattingRowOf(cells: seq<string>): (r: BattingRow)
    requires |cells| >= 7
    ensures r.playerName == cells[0]
    ensures |cells| <= 7 ==> r.doubles == 0 && r.triples == 0 && r.homeRuns == 0
    ensures |cells| <= 10 ==> r.stolenBases == 0 && r.totalBases == 0
  {
    BattingRow(cells[0], IntCell(cells, 1), IntCell(cells, 2), IntCell(cells, 3), IntCell(cells, 4),
               IntCell(cells, 5), IntCell(cells, 6), IntCell(cells, 7), IntCell(cells, 8),
               IntCell(cells, 9), IntCell(cells, 10), IntCell(cells, 11))
  }

  function PitchingRowOf(cells: seq<string>): (r: PitchingRow)
    requires |cells| >= 7
    ensures r.pitcherName == cells[0] && r.ip == cells[1]
    ensures r.pitchesThrown.None? <==> |cells| <= 7
    ensures r.battersFaced.None? <==> |cells| <= 9
  {
    PitchingRow(cells[0], cells[1], IntCell(cells, 2), IntCell(cells, 3), IntCell(cells, 4),
                IntCell(cells, 5), IntCell(cells, 6), OptIntCell(cells, 7), OptIntCell(cells, 8),
                OptIntCell(cells, 9))
  }

  /** Every cell passed through `normalize_text`. */
  function NormalizeCells(cells: seq<string>): (r: seq<string>)
    ensures |r| == |cells|
    ensures forall k :: 0 <= k < |r| ==> r[k] == NormalizeText(Some(cells[k]))
  {
    seq(|cells|, k requires 0 <= k < |cells| => NormalizeText(Some(cells[k])))
  }

  /** A grid row is a pitching line iff it has at least seven cells and a "." in its IP cell. */
  predicate IsPitchingLine(cells: seq<string>)
  {
    |cells| >= 7 && '.' in cells[1]
  }

  /** The batting rows of a grid, in grid order: one per row of at least seven cells. */
  function BattingRows(grid: seq<seq<string>>): seq<BattingRow>
    decreases |grid|
  {
    if grid == [] then []
    else
      var last := NormalizeCells(grid[|grid| - 1]);
      BattingRows(grid[..|grid| - 1]) + (if |last| >= 7 then [BattingRowOf(last)] else [])
  }

  /** The pitching rows of a grid, in grid order. */
  function PitchingRows(grid: seq<seq<string>>): seq<PitchingRow>
    decreases |grid|
  {
    if grid == [] then []
    else
      var last := NormalizeCells(grid[|grid| - 1]);
      PitchingRows(grid[..|grid| - 1]) + (if IsPitchingLine(last) then [PitchingRowOf(last)] else [])
  }

  /** Every pitching line is also a batting line, so there are never more pitching rows. */
  lemma {:induction false} PitchingNoMoreThanBatting(grid: seq<seq<string>>)
    ensures |PitchingRows(grid)| <= |BattingRows(grid)|
    decreases |grid|
  {
    if grid != [] {
      PitchingNoMoreThanBatting(grid[..|grid| - 1]);
    }
  }

  /** `parse_box_score` after the grid has been located: classify every non-empty grid row. */
  method ParseBoxScore(grid: seq<seq<string>>) returns (batting: seq<BattingRow>, pitching: seq<PitchingRow>)
    ensures batting == BattingRows(grid)
    ensures pitching == PitchingRows(grid)
  {
    batting, pitching := [], [];
    for i := 0 to |grid|
      invariant batting == BattingRows(grid[..i])
      invariant pitching == PitchingRows(grid[..i])
    {
      assert grid[..i + 1][..i] == grid[..i];
      var cells := grid[i];
      if |cells| == 0 {
        continue;
      }
      var text := NormalizeCells(cells);
      if |text| >= 7 {
        batting := batting + [BattingRowOf(text)];
      }
      if |text| >= 7 && '.' in text[1] {
        pitching := pitching + [PitchingRowOf(text)];
      }
    }
    assert grid[..|grid|] == grid;
  }

  // ---------------------------------------------------------------------------
  // apply_extra_stats_from_summary

  /** The label cell: normalized, every ":" removed, stripped. */
  function LabelKey(raw: string): string
  {
    Strip(RemoveChar(NormalizeText(Some(raw)), ':'))
  }

  /** `label_to_field`: only 2B, 3B, HR, SB and TB are merged. */
  function LabelField(key: string): (r: Option<StatField>)
    ensures r.Some? <==> key in {"2B", "3B", "HR", "SB", "TB"}
  {
    if key == "2B" then Some(Doubles)
    else if key == "3B" then Some(Triples)
    else if key == "HR" then Some(HomeRuns)
    else if key == "SB" then Some(StolenBases)
    else if key == "TB" then Some(TotalBases)
    else None
  }

  /** `re.sub(r",$", "", tok)`: one trailing comma removed. */
  function DropTrailingComma(tok: string): (r: string)
    ensures r == tok || (r + [','] == tok)
  {
    if tok != [] && tok[|tok| - 1] == ',' then tok[..|tok| - 1] else tok
  }

  /** The name part and the count of a token: a trailing whitespace-and-digits group, found as
      `re.search(r"\s+(\d+)$", tok)` finds it, is the count and what precedes it, stripped, is the
      name; without such a group the count is 1 and the whole token, stripped, is the name. */
  function NameAndCount(tok: string): (r: (string, nat))
    ensures Trimmed(r.0, WhiteSpace)
  {
    DigitsApart();
    match SplitTrailing(tok, DigitChars, 0)
    case Some((head, digits)) =>
      AllDigitChars(digits);
      (Strip(head), DigitsValue(digits))
    case None => (Strip(tok), 1)
  }

  /** One player token of a stat line; an empty token or an empty name gives None. */
  function ParseStatToken(span: string): (r: Option<(string, nat)>)
    ensures r.Some? ==> r.value.0 != [] && Trimmed(r.value.0, WhiteSpace)
  {
    var tok := NormalizeText(Some(span));
    if tok == [] then None
    else
      var nc := NameAndCount(DropTrailingComma(tok));
      if nc.0 == [] then None else Some(nc)
  }

  /** In "name digits" the count group is the digits and the head is the name. */
  lemma SplitTrailingAfterName(name: string, ds: string)
    requires IsNormalized(name) && name != []
    requires ds != [] && AllDigits(ds)
    ensures SplitTrailing(name + " " + ds, DigitChars, 0) == Some((name, ds))
  {
    AllDigitChars(ds);
    DigitsApart();
    SplitTrailingAfterHead(name, DigitChars, ds, 0);
  }

  /** Right after a normalized name, " <digits>" is the count. */
  lemma NameAndCountOf(name: string, ds: string)
    requires IsNormalized(name) && name != []
    requires ds != [] && AllDigits(ds)
    ensures NameAndCount(name + " " + ds) == (name, DigitsValue(ds))
  {
    SplitTrailingAfterName(name, ds);
    TrimFixpoint(name, WhiteSpace);
  }

  /** Without a trailing digit there is no count group. */
  lemma NameAndCountDefault(name: string)
    requires Trimmed(name, WhiteSpace)
    requires name == [] || !IsDigit(name[|name| - 1])
    ensures NameAndCount(name) == (name, 1)
  {
    if name != [] {
      AllDigitChars([name[|name| - 1]]);
    }
    DigitsApart();
    SplitTrailingNone(name, DigitChars, 0);
    TrimFixpoint(name, WhiteSpace);
  }

  /** Joining a normalized phrase and a word with one space keeps it normalized. */
  lemma NormalizedAppendWord(name: string, w: string)
    requires IsNormalized(name) && name != []
    requires w != [] && NoneIn(w, WhiteSpace)
    ensures IsNormalized(name + " " + w)
  {
    var text := name + " " + w;
    assert forall i :: 0 <= i < |w| ==> text[|name| + 1 + i] == w[i];
    assert forall i :: 0 <= i < |name| ==> text[i] == name[i];
    assert text[|name|] == ' ';
  }

  /** Normalized text goes straight to the comma and count steps. */
  lemma ParseStatTokenNormalized(text: string)
    requires IsNormalized(text) && text != []
    ensures var nc := NameAndCount(DropTrailingComma(text));
            ParseStatToken(text) == if nc.0 == [] then None else Some(nc)
  {
    NormalizedFixpoint(text);
  }

  /** A count written after the name is read back, with or without the trailing comma
      ("Declan Soares 4," gives ("Declan Soares", 4)). */
  lemma ParseStatTokenCount(name: string, n: nat, comma: bool)
    requires IsNormalized(name) && name != []
    ensures ParseStatToken(name + " " + NatToString(n) + (if comma then "," else "")) == Some((name, n))
  {
    var ds := NatToString(n);
    var tok := name + " " + ds;
    var w := ds + (if comma then "," else "");
    var text := name + " " + w;
    assert text == tok + (if comma then "," else "");
    assert NoneIn(w, WhiteSpace) by {
      assert forall i :: 0 <= i < |ds| ==> w[i] == ds[i];
    }
    NormalizedAppendWord(name, w);
    assert DropTrailingComma(text) == tok by {
      if comma {
        assert text[..|text| - 1] == tok;
      } else {
        assert text == tok && tok[|tok| - 1] == ds[|ds| - 1];
      }
    }
    NameAndCountOf(name, ds);
    ParseStatTokenNormalized(text);
  }

  /** Without a trailing count the count is 1 ("HR: Jane Doe" credits Jane Doe with one). */
  lemma ParseStatTokenDefaultCount(name: string)
    requires IsNormalized(name) && name != []
    requires !IsDigit(name[|name| - 1]) && name[|name| - 1] != ','
    ensures ParseStatToken(name) == Some((name, 1))
  {
    ParseStatTokenNormalized(name);
    NameAndCountDefault(name);
  }

  // ---------------------------------------------------------------------------
  // Matching summary names against batting rows

  /** The key a batting row is indexed under: its cleaned name, lower-cased ("" is never indexed). */
  function RowKey(row: BattingRow): string
  {
    ToLower(CleanName(row.playerName))
  }

  function RowKeys(rows: seq<BattingRow>): (keys: seq<string>)
    ensures |keys| == |rows|
    ensures forall i :: 0 <= i < |rows| ==> keys[i] == RowKey(rows[i])
  {
    seq(|rows|, i requires 0 <= i < |rows| => RowKey(rows[i]))
  }

  /** The key a summary token is looked up by. */
  function TokenKey(token: string): string
  {
    ToLower(CleanName(token))
  }

  /** Every word of the token occurs as a substring of the key. */
  predicate AllWordsIn(words: seq<string>, key: string)
  {
    forall k :: 0 <= k < |words| ==> Contains(key, words[k])
  }

  /** Reference meaning of `find_batting_rows_for_token`: the rows whose key equals the token's key
      when some row has that key; otherwise the indexed rows whose key contains every word of the
      token's key; nothing for a token whose key is empty. */
  function MatchSet(keys: seq<string>, token: string): set<nat>
  {
    var tc := TokenKey(token);
    if tc == [] then {}
    else if tc in keys then set i: nat | i < |keys| && keys[i] == tc
    else set i: nat | i < |keys| && keys[i] != [] && AllWordsIn(Words(tc), keys[i])
  }

  /** The positions holding `name`, in increasing order. */
  function Positions(keys: seq<string>, name: string): seq<nat>
    decreases |keys|
  {
    if keys == [] then []
    else Positions(keys[..|keys| - 1], name) + (if keys[|keys| - 1] == name then [|keys| - 1] else [])
  }

  /** `Positions` lists exactly the positions holding the name, each once. */
  lemma {:induction false} PositionsExact(keys: seq<string>, name: string)
    ensures var r := Positions(keys, name);
      (forall j :: 0 <= j < |r| ==> r[j] < |keys| && keys[r[j]] == name) &&
      (forall i :: 0 <= i < |keys| && keys[i] == name ==> i in r) &&
      (forall a, b :: 0 <= a < b < |r| ==> r[a] < r[b])
    decreases |keys|
  {
    if keys != [] {
      var init := keys[..|keys| - 1];
      PositionsExact(init, name);
      assert forall i :: 0 <= i < |init| ==> init[i] == keys[i];
    }
  }

  predicate Distinct<T(==)>(s: seq<T>)
  {
    forall a, b :: 0 <= a < b < |s| ==> s[a] != s[b]
  }

  /** `cleaned_index` for `keys`: the distinct non-empty keys in first-seen order, and for each of them
      the positions of the rows filed under it, in row order. */
  predicate IsIndex(keys: seq<string>, names: seq<string>, index: map<string, seq<nat>>)
  {
    Distinct(names) &&
    (forall n :: n in names ==> n in index) &&
    (forall n :: n in index ==> n in names && n in keys && n != [] && index[n] == Positions(keys, n)) &&
    (forall i :: 0 <= i < |keys| && keys[i] != [] ==> keys[i] in index)
  }

  /** Positions in a longer key list extend those in the shorter one. */
  lemma PositionsAppend(keys: seq<string>, c: string, n: string)
    ensures Positions(keys + [c], n) == Positions(keys, n) + (if c == n then [|keys|] else [])
  {
    assert (keys + [c])[..|keys|] == keys;
  }

  lemma {:induction false} PositionsAbsent(keys: seq<string>, n: string)
    requires forall i :: 0 <= i < |keys| ==> keys[i] != n
    ensures Positions(keys, n) == []
    decreases |keys|
  {
    if keys != [] {
      PositionsAbsent(keys[..|keys| - 1], n);
    }
  }

  /** Skipping a row whose key is empty keeps the index exact. */
  lemma IndexSkip(keys: seq<string>, names: seq<string>, index: map<string, seq<nat>>)
    requires IsIndex(keys, names, index)
    ensures IsIndex(keys + [[]], names, index)
  {
    var keys' := keys + [[]];
    forall n | n in index
      ensures Positions(keys', n) == Positions(keys, n)
    {
      PositionsAppend(keys, [], n);
    }
    assert forall i :: 0 <= i < |keys| ==> keys'[i] == keys[i];
  }

  /** Filing a row under a key already present appends its position to that key's list. */
  lemma IndexExtend(keys: seq<string>, names: seq<string>, index: map<string, seq<nat>>, c: string)
    requires IsIndex(keys, names, index) && c in index
    ensures IsIndex(keys + [c], names, index[c := index[c] + [|keys|]])
  {
    var keys' := keys + [c];
    forall n
      ensures Positions(keys', n) == Positions(keys, n) + (if c == n then [|keys|] else [])
    {
      PositionsAppend(keys, c, n);
    }
    assert forall i :: 0 <= i < |keys| ==> keys'[i] == keys[i];
  }

  /** Filing a row under a new key adds the key, with that one position. */
  lemma IndexAdd(keys: seq<string>, names: seq<string>, index: map<string, seq<nat>>, c: string)
    requires IsIndex(keys, names, index)
    requires c != [] && c !in index
    ensures IsIndex(keys + [c], names + [c], index[c := [|keys|]])
  {
    var keys' := keys + [c];
    forall n
      ensures Positions(keys', n) == Positions(keys, n) + (if c == n then [|keys|] else [])
    {
      PositionsAppend(keys, c, n);
    }
    PositionsAbsent(keys, c);
    var names' := names + [c];
    assert c !in names;
    assert Distinct(names');
    assert forall n :: n in names' <==> n in names || n == c;
    assert forall i :: 0 <= i < |keys| ==> keys'[i] == keys[i];
  }

  /** `cleaned_index.setdefault(c, []).append(i)`, skipped for an empty key. */
  function FileRow(names: seq<string>, index: map<string, seq<nat>>, c: string, i: nat): (seq<string>, map<string, seq<nat>>)
  {
    if c == [] then (names, index)
    else if c in index then (names, index[c := index[c] + [i]])
    else (names + [c], index[c := [i]])
  }

  /** Filing the next row keeps the index exact. */
  lemma IndexFile(keys: seq<string>, names: seq<string>, index: map<string, seq<nat>>, c: string)
    requires IsIndex(keys, names, index)
    ensures var (names', index') := FileRow(names, index, c, |keys|); IsIndex(keys + [c], names', index')
  {
    if c == [] {
      IndexSkip(keys, names, index);
    } else if c in index {
      IndexExtend(keys, names, index, c);
    } else {
      IndexAdd(keys, names, index, c);
    }
  }

  lemma IndexEmpty()
    ensures IsIndex([], [], map[])
  {
  }

  /** The index loop over the batting rows. */
  method BuildCleanedIndex(rows: seq<BattingRow>) returns (names: seq<string>, index: map<string, seq<nat>>)
    ensures IsIndex(RowKeys(rows), names, index)
  {
    var keys := RowKeys(rows);
    names, index := [], map[];
    assert keys[..0] == [];
    IndexEmpty();
    for i := 0 to |rows|
      invariant IsIndex(keys[..i], names, index)
    {
      IndexStep(keys, i, names, index);
      var filed := FileRow(names, index, keys[i], i);
      names, index := filed.0, filed.1;
    }
    assert keys[..|rows|] == keys;
  }

  /** One turn of the index loop. */
  lemma IndexStep(keys: seq<string>, i: nat, names: seq<string>, index: map<string, seq<nat>>)
    requires i < |keys| && IsIndex(keys[..i], names, index)
    ensures var filed := FileRow(names, index, keys[i], i); IsIndex(keys[..i + 1], filed.0, filed.1)
  {
    assert keys[..i + 1] == keys[..i] + [keys[i]];
    IndexFile(keys[..i], names, index, keys[i]);
  }

  /** The fallback scan over the index, in key order. */
  function Gather(names: seq<string>, index: map<string, seq<nat>>, words: seq<string>): seq<nat>
    requires forall n :: n in names ==> n in index
  {
    if names == [] then []
    else (if AllWordsIn(words, names[0]) then index[names[0]] else []) + Gather(names[1..], index, words)
  }

  /** `find_batting_rows_for_token` over the index built above. */
  function FindRowsForToken(names: seq<string>, index: map<string, seq<nat>>, token: string): seq<nat>
    requires forall n :: n in names ==> n in index
  {
    var tc := TokenKey(token);
    if tc == [] then []
    else if tc in index then index[tc]
    else Gather(names, index, Words(tc))
  }

  /** The fallback scan returns the positions of the keys among `names` that hold every word. */
  lemma {:induction false} GatherMembers(keys: seq<string>, names: seq<string>, index: map<string, seq<nat>>, words: seq<string>)
    requires forall n :: n in names ==> n in index && index[n] == Positions(keys, n)
    ensures var g := Gather(names, index, words);
      (forall j :: 0 <= j < |g| ==> g[j] < |keys| && keys[g[j]] in names) &&
      (forall i :: 0 <= i < |keys| ==> (i in g <==> keys[i] in names && AllWordsIn(words, keys[i])))
  {
    if names != [] {
      var rest := names[1..];
      assert forall n :: n in rest ==> n in names;
      GatherMembers(keys, rest, index, words);
      assert names[0] in names;
      var head := if AllWordsIn(words, names[0]) then index[names[0]] else [];
      var tail := Gather(rest, index, words);
      assert Gather(names, index, words) == head + tail;
      assert names == [names[0]] + rest;
      GatherCons(keys, names[0], rest, words, head, tail);
    }
  }

  /** One key in front of the scanned rest. */
  lemma GatherCons(keys: seq<string>, n: string, rest: seq<string>, words: seq<string>, head: seq<nat>, tail: seq<nat>)
    requires head == if AllWordsIn(words, n) then Positions(keys, n) else []
    requires forall j :: 0 <= j < |tail| ==> tail[j] < |keys| && keys[tail[j]] in rest
    requires forall i :: 0 <= i < |keys| ==> (i in tail <==> keys[i] in rest && AllWordsIn(words, keys[i]))
    ensures var g := head + tail;
      (forall j :: 0 <= j < |g| ==> g[j] < |keys| && keys[g[j]] in [n] + rest) &&
      (forall i :: 0 <= i < |keys| ==> (i in g <==> keys[i] in [n] + rest && AllWordsIn(words, keys[i])))
  {
    HeadRows(keys, n, words);
    HeadMembers(keys, n, words);
    var g := head + tail;
    var names := [n] + rest;
    forall j | 0 <= j < |g|
      ensures g[j] < |keys| && keys[g[j]] in names
    {
      if j < |head| {
        assert g[j] == head[j];
      } else {
        assert g[j] == tail[j - |head|];
      }
    }
    forall i | 0 <= i < |keys|
      ensures i in g <==> keys[i] in names && AllWordsIn(words, keys[i])
    {
      assert i in g <==> i in head || i in tail;
      assert i in head <==> keys[i] == n && AllWordsIn(words, n);
      assert keys[i] in names <==> keys[i] == n || keys[i] in rest;
    }
  }

  /** The rows a key contributes to the scan are all its rows when it holds every word. */
  lemma HeadMembers(keys: seq<string>, n: string, words: seq<string>)
    ensures var head := if AllWordsIn(words, n) then Positions(keys, n) else [];
      forall i :: 0 <= i < |keys| ==> (i in head <==> keys[i] == n && AllWordsIn(words, n))
  {
    PositionsExact(keys, n);
  }

  /** With distinct names the fallback scan lists no row twice. */
  lemma {:induction false} GatherDistinct(keys: seq<string>, names: seq<string>, index: map<string, seq<nat>>, words: seq<string>)
    requires Distinct(names)
    requires forall n :: n in names ==> n in index && index[n] == Positions(keys, n)
    ensures Distinct(Gather(names, index, words))
  {
    if names != [] {
      var rest := names[1..];
      DistinctUncons(names);
      assert forall n :: n in rest ==> n in names;
      GatherDistinct(keys, rest, index, words);
      assert names[0] in names;
      assert names == [names[0]] + rest;
      DistinctStep(keys, names[0], rest, index, words);
    }
  }

  /** The scan's step: a key not among the rest adds rows the rest's scan does not hold. */
  lemma DistinctStep(keys: seq<string>, n: string, rest: seq<string>, index: map<string, seq<nat>>, words: seq<string>)
    requires n in index && index[n] == Positions(keys, n)
    requires forall m :: m in rest ==> m in index && index[m] == Positions(keys, m)
    requires n !in rest && Distinct(Gather(rest, index, words))
    ensures Distinct(Gather([n] + rest, index, words))
  {
    var tail := ScannedKeys(keys, rest, index, words);
    var head := if AllWordsIn(words, n) then Positions(keys, n) else [];
    assert ([n] + rest)[1..] == rest;
    assert Gather([n] + rest, index, words) == head + tail;
    HeadRows(keys, n, words);
    DistinctCons(keys, n, rest, head, tail);
  }

  /** Every row the scan returns holds one of the scanned keys. */
  lemma ScannedKeys(keys: seq<string>, names: seq<string>, index: map<string, seq<nat>>, words: seq<string>) returns (g: seq<nat>)
    requires forall n :: n in names ==> n in index && index[n] == Positions(keys, n)
    ensures g == Gather(names, index, words)
    ensures forall j :: 0 <= j < |g| ==> g[j] < |keys| && keys[g[j]] in names
  {
    GatherMembers(keys, names, index, words);
    g := Gather(names, index, words);
  }

  /** The first of distinct names is not among the others, which are distinct too. */
  lemma DistinctUncons(names: seq<string>)
    requires Distinct(names) && names != []
    ensures Distinct(names[1..]) && names[0] !in names[1..]
  {
    var rest := names[1..];
    assert forall a :: 0 <= a < |rest| ==> rest[a] == names[a + 1];
  }

  /** The rows a key contributes to the scan hold that key, each once. */
  lemma HeadRows(keys: seq<string>, n: string, words: seq<string>)
    ensures var head := if AllWordsIn(words, n) then Positions(keys, n) else [];
      Distinct(head) && forall j :: 0 <= j < |head| ==> head[j] < |keys| && keys[head[j]] == n
  {
    PositionsExact(keys, n);
  }

  /** Rows of one key in front of rows of other keys repeat nothing. */
  lemma DistinctCons(keys: seq<string>, n: string, rest: seq<string>, head: seq<nat>, tail: seq<nat>)
    requires Distinct(head) && forall j :: 0 <= j < |head| ==> head[j] < |keys| && keys[head[j]] == n
    requires n !in rest && Distinct(tail)
    requires forall j :: 0 <= j < |tail| ==> tail[j] < |keys| && keys[tail[j]] in rest
    ensures Distinct(head + tail)
  {
    var g := head + tail;
    forall a, b | 0 <= a < b < |g| ensures g[a] != g[b] {
      if b < |head| {
        assert g[a] == head[a] && g[b] == head[b];
      } else if a >= |head| {
        assert g[a] == tail[a - |head|] && g[b] == tail[b - |head|];
      } else {
        assert g[a] == head[a] && g[b] == tail[b - |head|];
        assert keys[g[a]] == n;
        assert keys[g[b]] in rest;
      }
    }
  }

  /** The index lookup returns, without repetition, exactly the rows of the reference match set. */
  lemma FindRowsMatches(keys: seq<string>, names: seq<string>, index: map<string, seq<nat>>, token: string)
    requires IsIndex(keys, names, index)
    ensures var m := FindRowsForToken(names, index, token);
      Distinct(m) &&
      (forall j :: 0 <= j < |m| ==> m[j] < |keys|) &&
      (forall i :: 0 <= i < |keys| ==> (i in m <==> i in MatchSet(keys, token)))
  {
    var tc := TokenKey(token);
    if tc != [] {
      if tc in index {
        FoundRows(keys, names, index, tc);
        MatchExact(keys, token);
      } else {
        assert tc !in keys;
        ScannedRows(keys, names, index, Words(tc));
        MatchFallback(keys, token);
      }
    }
  }

  /** A token whose key some row has matches exactly the rows with that key. */
  lemma MatchExact(keys: seq<string>, token: string)
    requires TokenKey(token) != [] && TokenKey(token) in keys
    ensures forall i :: 0 <= i < |keys| ==> (i in MatchSet(keys, token) <==> keys[i] == TokenKey(token))
  {
  }

  /** Any other token with a key matches the rows whose non-empty key holds each of its words. */
  lemma MatchFallback(keys: seq<string>, token: string)
    requires TokenKey(token) != [] && TokenKey(token) !in keys
    ensures forall i :: 0 <= i < |keys| ==>
      (i in MatchSet(keys, token) <==> keys[i] != [] && AllWordsIn(Words(TokenKey(token)), keys[i]))
  {
  }

  /** A key of the index gives exactly its own rows, in order. */
  lemma FoundRows(keys: seq<string>, names: seq<string>, index: map<string, seq<nat>>, tc: string)
    requires IsIndex(keys, names, index) && tc in index
    ensures var m := index[tc];
      Distinct(m) &&
      (forall j :: 0 <= j < |m| ==> m[j] < |keys|) &&
      (forall i :: 0 <= i < |keys| ==> (i in m <==> keys[i] == tc))
  {
    PositionsExact(keys, tc);
  }

  /** The fallback scan gives exactly the indexed rows holding every word, each once. */
  lemma ScannedRows(keys: seq<string>, names: seq<string>, index: map<string, seq<nat>>, words: seq<string>)
    requires IsIndex(keys, names, index)
    ensures var m := Gather(names, index, words);
      Distinct(m) &&
      (forall j :: 0 <= j < |m| ==> m[j] < |keys|) &&
      (forall i :: 0 <= i < |keys| ==> (i in m <==> keys[i] != [] && AllWordsIn(words, keys[i])))
  {
    GatherMembers(keys, names, index, words);
    GatherDistinct(keys, names, index, words);
    assert forall i :: 0 <= i < |keys| && keys[i] != [] ==> keys[i] in names;
  }

  // ---------------------------------------------------------------------------
  // Merging the extra-stats panels

  /** No stat field of `b` is below the one of `a`. */
  predicate NoFieldDecreases(a: BattingRow, b: BattingRow)
  {
    forall g :: FieldValue(b, g) >= FieldValue(a, g)
  }

  /** The same rows in the same order, each keeping its name and base columns, none losing a count. */
  predicate Grown(before: seq<BattingRow>, after: seq<BattingRow>)
  {
    |after| == |before| &&
    forall i :: 0 <= i < |before| ==> SameBase(after[i], before[i]) && NoFieldDecreases(before[i], after[i])
  }

  /** `count` added to field `f` of exactly the rows in `m`. */
  function BumpRows(rows: seq<BattingRow>, m: set<nat>, f: StatField, count: int): (r: seq<BattingRow>)
    ensures |r| == |rows|
    ensures forall i :: 0 <= i < |rows| ==> r[i] == if i in m then AddToField(rows[i], f, count) else rows[i]
  {
    seq(|rows|, i requires 0 <= i < |rows| => if i in m then AddToField(rows[i], f, count) else rows[i])
  }

  /** One player token of a line labelled `f`. */
  function ApplyToken(keys: seq<string>, rows: seq<BattingRow>, f: StatField, span: string): (r: seq<BattingRow>)
  {
    match ParseStatToken(span)
    case None => rows
    case Some((name, count)) => BumpRows(rows, MatchSet(keys, name), f, count)
  }

  /** The player tokens of one line, in order. */
  function ApplyTokens(keys: seq<string>, rows: seq<BattingRow>, f: StatField, spans: seq<string>): (r: seq<BattingRow>)
    decreases |spans|
  {
    if spans == [] then rows
    else ApplyToken(keys, ApplyTokens(keys, rows, f, spans[..|spans| - 1]), f, spans[|spans| - 1])
  }

  /** One stat line: the first span is the label; a line without spans, or with a label other than
      2B, 3B, HR, SB or TB, changes nothing. */
  function ApplyLine(keys: seq<string>, rows: seq<BattingRow>, spans: seq<string>): (r: seq<BattingRow>)
  {
    if spans == [] then rows
    else
      match LabelField(LabelKey(spans[0]))
      case None => rows
      case Some(f) => ApplyTokens(keys, rows, f, spans[1..])
  }

  /** The stat lines of one panel, in order. */
  function ApplyLines(keys: seq<string>, rows: seq<BattingRow>, lines: seq<seq<string>>): (r: seq<BattingRow>)
    decreases |lines|
  {
    if lines == [] then rows
    else ApplyLine(keys, ApplyLines(keys, rows, lines[..|lines| - 1]), lines[|lines| - 1])
  }

  /** The panels, in order. */
  function ApplyPanels(keys: seq<string>, rows: seq<BattingRow>, panels: seq<seq<seq<string>>>): (r: seq<BattingRow>)
    decreases |panels|
  {
    if panels == [] then rows
    else ApplyLines(keys, ApplyPanels(keys, rows, panels[..|panels| - 1]), panels[|panels| - 1])
  }

  /** What `apply_extra_stats_from_summary` leaves in `batting_rows`: names are matched against the
      keys of the rows as they were on entry; no rows means nothing to do. */
  function ExtraStatsApplied(rows: seq<BattingRow>, panels: seq<seq<seq<string>>>): (r: seq<BattingRow>)
  {
    if rows == [] then rows else ApplyPanels(RowKeys(rows), rows, panels)
  }

  lemma GrownTransitive(a: seq<BattingRow>, b: seq<BattingRow>, c: seq<BattingRow>)
    requires Grown(a, b) && Grown(b, c)
    ensures Grown(a, c)
  {
    forall i | 0 <= i < |a|
      ensures SameBase(c[i], a[i]) && NoFieldDecreases(a[i], c[i])
    {
      assert forall g :: FieldValue(c[i], g) >= FieldValue(b[i], g) >= FieldValue(a[i], g);
    }
  }

  lemma BumpGrows(rows: seq<BattingRow>, m: set<nat>, f: StatField, count: nat)
    ensures Grown(rows, BumpRows(rows, m, f, count))
  {
  }

  lemma TokenGrows(keys: seq<string>, rows: seq<BattingRow>, f: StatField, span: string)
    ensures Grown(rows, ApplyToken(keys, rows, f, span))
  {
    var parsed := ParseStatToken(span);
    if parsed.Some? {
      BumpGrows(rows, MatchSet(keys, parsed.value.0), f, parsed.value.1);
    }
  }

  lemma {:induction false} TokensGrow(keys: seq<string>, rows: seq<BattingRow>, f: StatField, spans: seq<string>)
    ensures Grown(rows, ApplyTokens(keys, rows, f, spans))
    decreases |spans|
  {
    if spans != [] {
      var mid := ApplyTokens(keys, rows, f, spans[..|spans| - 1]);
      TokensGrow(keys, rows, f, spans[..|spans| - 1]);
      TokenGrows(keys, mid, f, spans[|spans| - 1]);
      GrownTransitive(rows, mid, ApplyToken(keys, mid, f, spans[|spans| - 1]));
    }
  }

  lemma LineGrows(keys: seq<string>, rows: seq<BattingRow>, line: seq<string>)
    ensures Grown(rows, ApplyLine(keys, rows, line))
  {
    LineIsTokens(keys, rows, line);
    if line != [] && LabelField(LabelKey(line[0])).Some? {
      TokensGrow(keys, rows, LabelField(LabelKey(line[0])).value, line[1..]);
    }
  }

  lemma {:induction false} LinesGrow(keys: seq<string>, rows: seq<BattingRow>, lines: seq<seq<string>>)
    ensures Grown(rows, ApplyLines(keys, rows, lines))
    decreases |lines|
  {
    if lines != [] {
      var mid := ApplyLines(keys, rows, lines[..|lines| - 1]);
      LinesGrow(keys, rows, lines[..|lines| - 1]);
      LineGrows(keys, mid, lines[|lines| - 1]);
      GrownTransitive(rows, mid, ApplyLine(keys, mid, lines[|lines| - 1]));
    }
  }

  lemma {:induction false} PanelsGrow(keys: seq<string>, rows: seq<BattingRow>, panels: seq<seq<seq<string>>>)
    ensures Grown(rows, ApplyPanels(keys, rows, panels))
    decreases |panels|
  {
    if panels != [] {
      var mid := ApplyPanels(keys, rows, panels[..|panels| - 1]);
      PanelsGrow(keys, rows, panels[..|panels| - 1]);
      LinesGrow(keys, mid, panels[|panels| - 1]);
      GrownTransitive(rows, mid, ApplyLines(keys, mid, panels[|panels| - 1]));
    }
  }

  /** Merging the extra stats keeps every row, its name and its other columns, and never lowers a
      count (every count read from a token is a natural number). */
  lemma ExtraStatsOnlyAdd(rows: seq<BattingRow>, panels: seq<seq<seq<string>>>)
    ensures Grown(rows, ExtraStatsApplied(rows, panels))
  {
    if rows != [] {
      PanelsGrow(RowKeys(rows), rows, panels);
    }
  }

  /** Panels whose lines all carry labels other than 2B, 3B, HR, SB and TB change nothing. */
  lemma {:induction false} UnknownLabelsChangeNothing(keys: seq<string>, rows: seq<BattingRow>, lines: seq<seq<string>>)
    requires forall l :: 0 <= l < |lines| && lines[l] != [] ==> LabelField(LabelKey(lines[l][0])).None?
    ensures ApplyLines(keys, rows, lines) == rows
    decreases |lines|
  {
    if lines != [] {
      var init := lines[..|lines| - 1];
      assert forall l :: 0 <= l < |init| ==> init[l] == lines[l];
      UnknownLabelsChangeNothing(keys, rows, init);
    }
  }

  /** One token adds its count to the chosen field of exactly the matched rows, and to nothing else. */
  lemma TokenEffect(keys: seq<string>, rows: seq<BattingRow>, f: StatField, span: string, name: string, count: nat)
    requires ParseStatToken(span) == Some((name, count))
    ensures var r := ApplyToken(keys, rows, f, span);
      forall i, g :: 0 <= i < |rows| ==>
        FieldValue(r[i], g) == FieldValue(rows[i], g) + (if g == f && i in MatchSet(keys, name) then count else 0)
  {
  }

  /** `for row in matched_rows: row[field] = (row.get(field) or 0) + count`, the matched rows
      being distinct. */
  method BumpInPlace(rows: array<BattingRow>, matched: seq<nat>, f: StatField, count: int)
    requires Distinct(matched) && forall j :: 0 <= j < |matched| ==> matched[j] < rows.Length
    modifies rows
    ensures rows[..] == BumpRows(old(rows[..]), (set j | j in matched), f, count)
  {
    for k := 0 to |matched|
      invariant forall i :: 0 <= i < rows.Length ==>
        rows[i] == if i in matched[..k] then AddToField(old(rows[i]), f, count) else old(rows[i])
    {
      var j := matched[k];
      assert j !in matched[..k];
      assert forall i :: i in matched[..k + 1] <==> i in matched[..k] || i == j;
      rows[j] := AddToField(rows[j], f, count);
    }
    assert matched[..|matched|] == matched;
  }

  /** The rows the index returns are valid positions, each once. */
  lemma FindRowsInRange(keys: seq<string>, names: seq<string>, index: map<string, seq<nat>>, token: string)
    requires IsIndex(keys, names, index)
    ensures var m := FindRowsForToken(names, index, token);
      Distinct(m) && forall j :: 0 <= j < |m| ==> m[j] < |keys|
  {
    FindRowsMatches(keys, names, index, token);
  }

  /** Bumping the rows the index returns for a parsed token is that token's reference effect. */
  lemma BumpMeetsToken(keys: seq<string>, names: seq<string>, index: map<string, seq<nat>>,
                       rows: seq<BattingRow>, f: StatField, span: string, name: string, count: nat)
    requires IsIndex(keys, names, index) && ParseStatToken(span) == Some((name, count))
    ensures BumpRows(rows, (set j | j in FindRowsForToken(names, index, name)), f, count) == ApplyToken(keys, rows, f, span)
  {
    MatchedSet(keys, names, index, name);
    TokenIsBump(keys, rows, f, span, name, count);
  }

  /** The rows the index returns are the reference match set. */
  lemma MatchedSet(keys: seq<string>, names: seq<string>, index: map<string, seq<nat>>, token: string)
    requires IsIndex(keys, names, index)
    ensures (set j | j in FindRowsForToken(names, index, token)) == MatchSet(keys, token)
  {
    FindRowsMatches(keys, names, index, token);
    MatchSetBounded(keys, token);
    SameMembers(FindRowsForToken(names, index, token), MatchSet(keys, token), |keys|);
  }

  lemma MatchSetBounded(keys: seq<string>, token: string)
    ensures forall x :: x in MatchSet(keys, token) ==> x < |keys|
  {
  }

  /** A list and a set of positions below `n` that agree on every position below `n` hold the
      same positions. */
  lemma SameMembers(m: seq<nat>, positions: set<nat>, n: nat)
    requires forall j :: 0 <= j < |m| ==> m[j] < n
    requires forall x :: x in positions ==> x < n
    requires forall i :: 0 <= i < n ==> (i in m <==> i in positions)
    ensures (set j | j in m) == positions
  {
  }

  /** A token that parses bumps the rows of its match set. */
  lemma TokenIsBump(keys: seq<string>, rows: seq<BattingRow>, f: StatField, span: string, name: string, count: nat)
    requires ParseStatToken(span) == Some((name, count))
    ensures ApplyToken(keys, rows, f, span) == BumpRows(rows, MatchSet(keys, name), f, count)
  {
  }

  method ApplyStatToken(rows: array<BattingRow>, ghost keys: seq<string>, names: seq<string>,
                        index: map<string, seq<nat>>, f: StatField, span: string)
    requires IsIndex(keys, names, index) && |keys| == rows.Length
    modifies rows
    ensures rows[..] == ApplyToken(keys, old(rows[..]), f, span)
  {
    var parsed := ParseStatToken(span);
    if parsed.None? {
      return;
    }
    var (name, count) := parsed.value;
    var matched := FindRowsForToken(names, index, name);
    FindRowsInRange(keys, names, index, name);
    BumpMeetsToken(keys, names, index, rows[..], f, span, name, count);
    BumpInPlace(rows, matched, f, count);
  }

  lemma LineIsTokens(keys: seq<string>, rows: seq<BattingRow>, spans: seq<string>)
    ensures spans == [] || LabelField(LabelKey(spans[0])).None? ==> ApplyLine(keys, rows, spans) == rows
    ensures spans != [] && LabelField(LabelKey(spans[0])).Some? ==>
      ApplyLine(keys, rows, spans) == ApplyTokens(keys, rows, LabelField(LabelKey(spans[0])).value, spans[1..])
  {
  }

  method ApplyStatTokens(rows: array<BattingRow>, ghost keys: seq<string>, names: seq<string>,
                         index: map<string, seq<nat>>, f: StatField, tokens: seq<string>)
    requires IsIndex(keys, names, index) && |keys| == rows.Length
    modifies rows
    ensures rows[..] == ApplyTokens(keys, old(rows[..]), f, tokens)
  {
    ghost var before := rows[..];
    for t := 0 to |tokens|
      invariant rows[..] == ApplyTokens(keys, before, f, tokens[..t])
    {
      assert tokens[..t + 1][..t] == tokens[..t];
      ApplyStatToken(rows, keys, names, index, f, tokens[t]);
    }
    assert tokens[..|tokens|] == tokens;
  }

  method ApplyStatLine(rows: array<BattingRow>, ghost keys: seq<string>, names: seq<string>,
                       index: map<string, seq<nat>>, spans: seq<string>)
    requires IsIndex(keys, names, index) && |keys| == rows.Length
    modifies rows
    ensures rows[..] == ApplyLine(keys, old(rows[..]), spans)
  {
    LineIsTokens(keys, rows[..], spans);
    if |spans| == 0 {
      return;
    }
    var field := LabelField(LabelKey(spans[0]));
    if field.None? {
      return;
    }
    ApplyStatTokens(rows, keys, names, index, field.value, spans[1..]);
  }

  method ApplyPanel(rows: array<BattingRow>, ghost keys: seq<string>, names: seq<string>,
                    index: map<string, seq<nat>>, lines: seq<seq<string>>)
    requires IsIndex(keys, names, index) && |keys| == rows.Length
    modifies rows
    ensures rows[..] == ApplyLines(keys, old(rows[..]), lines)
  {
    for l := 0 to |lines|
      invariant rows[..] == ApplyLines(keys, old(rows[..]), lines[..l])
    {
      assert lines[..l + 1][..l] == lines[..l];
      ApplyStatLine(rows, keys, names, index, lines[l]);
    }
    assert lines[..|lines|] == lines;
  }

  /** `apply_extra_stats_from_summary`: index the rows, then merge every panel into them in place. */
  method ApplyExtraStats(rows: array<BattingRow>, panels: seq<seq<seq<string>>>)
    modifies rows
    ensures rows[..] == ExtraStatsApplied(old(rows[..]), panels)
  {
    if rows.Length == 0 {
      return;
    }
    var names, index := BuildCleanedIndex(rows[..]);
    ghost var orig := rows[..];
    ghost var keys := RowKeys(orig);
    for p := 0 to |panels|
      invariant rows[..] == ApplyPanels(keys, orig, panels[..p])
    {
      assert panels[..p + 1][..p] == panels[..p];
      ApplyPanel(rows, keys, names, index, panels[p]);
    }
    assert panels[..|panels|] == panels;
  }
}
