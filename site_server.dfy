/**
  * server.py: the season list built from the CSV file names in the hitting and pitching data
  * folders (`_list_hitting_seasons`, `_list_pitching_seasons`), the file the CSV routes serve
  * for a season (`hitting_csv`, `pitching_csv`), and `check_auth`.
  */
module SiteServer {
  import opened Wrappers
  import opened Text
  import opened Sorting
  import GcText

  /** The two data folders differ only in their file-name prefix. */
  datatype Kind = Hitting | Pitching

  function Prefix(kind: Kind): string
  {
    match kind
    case Hitting => "hitting_"
    case Pitching => "pitching_"
  }

  /** One entry of the season list: `{"id": ..., "label": ...}`. */
  datatype Season = Season(id: string, seasonLabel: string)

  // ---------------------------------------------------------------------------
  // season id

  /** `fname.lower().endswith(".csv")`. */
  predicate IsCsvName(fname: string)
  {
    EndsWith(ToLower(fname), ".csv")
  }

  /** `fname[:-4]`, then the folder's prefix removed when the name starts with it (case
      counts here). */
  function SeasonId(kind: Kind, fname: string): (r: string)
    requires IsCsvName(fname)
    ensures |r| <= |fname| - 4
  {
    var base := fname[..|fname| - 4];
    if StartsWith(base, Prefix(kind)) then base[|Prefix(kind)|..] else base
  }

  /** A name ending in ".csv" in any case is a CSV name, and dropping four characters gives
      back the part before the extension. */
  lemma CsvNameOf(base: string, ext: string)
    requires ToLower(ext) == ".csv"
    ensures IsCsvName(base + ext)
    ensures (base + ext)[..|base + ext| - 4] == base
  {
    var f := base + ext;
    var l := ToLower(f);
    assert |ext| == 4;
    assert forall i :: 0 <= i < 4 ==> l[|f| - 4 + i] == LowerChar(ext[i]) == ToLower(ext)[i];
    assert l[|f| - 4..] == ToLower(ext);
    assert f[..|base|] == base;
  }

  /** "<prefix><id>.csv", with the extension in any case, has season id `id`. */
  lemma SeasonIdOfPrefixed(kind: Kind, id: string, ext: string)
    requires ToLower(ext) == ".csv"
    ensures IsCsvName(Prefix(kind) + id + ext)
    ensures SeasonId(kind, Prefix(kind) + id + ext) == id
  {
    var base := Prefix(kind) + id;
    CsvNameOf(base, ext);
    assert StartsWith(base, Prefix(kind));
    assert base[|Prefix(kind)|..] == id;
  }

  /** "<id>.csv" for an id that does not start with the prefix has season id `id`. */
  lemma SeasonIdOfPlain(kind: Kind, id: string, ext: string)
    requires ToLower(ext) == ".csv" && !StartsWith(id, Prefix(kind))
    ensures IsCsvName(id + ext)
    ensures SeasonId(kind, id + ext) == id
  {
    CsvNameOf(id, ext);
  }

  /** Only one prefix is removed: "hitting_hitting_x.csv" is season "hitting_x". */
  lemma SeasonIdDoublePrefix(kind: Kind, id: string)
    ensures SeasonId(kind, Prefix(kind) + Prefix(kind) + id + ".csv") == Prefix(kind) + id
  {
    assert Prefix(kind) + Prefix(kind) + id + ".csv" == Prefix(kind) + (Prefix(kind) + id) + ".csv";
    SeasonIdOfPrefixed(kind, Prefix(kind) + id, ".csv");
  }

  // ---------------------------------------------------------------------------
  // season label

  /** `season_id.replace("-", " ").replace("_", " ")`. */
  function Spaced(id: string): (r: string)
    ensures '-' !in r && '_' !in r
  {
    ReplaceChar(ReplaceChar(id, '-', ' '), '_', ' ')
  }

  function CapitalizeAll(words: seq<string>): (r: seq<string>)
    ensures |r| == |words|
    ensures forall k :: 0 <= k < |words| ==> r[k] == Capitalize(words[k])
  {
    if words == [] then [] else [Capitalize(words[0])] + CapitalizeAll(words[1..])
  }

  /** `" ".join(w.capitalize() for w in label.split())`. */
  function SeasonLabel(id: string): string
  {
    Join(CapitalizeAll(Words(Spaced(id))), " ")
  }

  /** An id that is one word without '-' or '_' (such as "fall2024") is labelled with that
      word capitalized ("Fall2024"): digits and letters are not split apart. */
  lemma LabelOfOneWord(id: string)
    requires IsWord(id) && '-' !in id && '_' !in id
    ensures SeasonLabel(id) == Capitalize(id)
  {
    assert Spaced(id) == id;
    WordsOfOneWord(id);
  }

  lemma WordsOfOneWord(w: string)
    requires IsWord(w)
    ensures Words(w) == [w]
  {
    assert w[0] in w;
    assert TrimStart(w, WhiteSpace) == w;
    WordLenAll(w);
    assert w[..|w|] == w;
    assert Words(w[|w|..]) == [] by {
      assert w[|w|..] == [];
    }
  }

  lemma {:induction false} WordLenAll(w: string)
    requires NoneIn(w, WhiteSpace)
    ensures WordLen(w) == |w|
  {
    if w != [] {
      assert w[0] in w;
      assert forall c :: c in w[1..] ==> c in w;
      WordLenAll(w[1..]);
    }
  }

  /** Upper-case first character, the rest lower case. */
  predicate IsCapitalized(w: string)
  {
    w != [] && w[0] == UpperChar(w[0]) && forall i :: 1 <= i < |w| ==> w[i] == LowerChar(w[i])
  }

  lemma CapitalizeAt(w: string)
    ensures forall i :: 0 <= i < |w| ==>
      Capitalize(w)[i] == if i == 0 then UpperChar(w[0]) else LowerChar(w[i])
  {
    if w != [] {
      assert forall i :: 1 <= i < |w| ==> Capitalize(w)[i] == ToLower(w[1..])[i - 1];
    }
  }

  /** A word without whitespace, '-' or '_' stays so when capitalized, and comes out
      capitalized. */
  lemma CapitalizedWord(w: string)
    requires IsWord(w) && '-' !in w && '_' !in w
    ensures IsWord(Capitalize(w)) && '-' !in Capitalize(w) && '_' !in Capitalize(w)
    ensures IsCapitalized(Capitalize(w))
  {
    var c := Capitalize(w);
    CapitalizeAt(w);
    forall i | 0 <= i < |c| ensures !IsSpace(c[i]) && c[i] != '-' && c[i] != '_' {
      assert w[i] in w;
    }
  }

  /** A character missing from `s` is missing from each piece of `s.split()`. */
  lemma {:induction false} WordsAvoid(s: string, c: char)
    requires c !in s
    ensures forall k :: 0 <= k < |Words(s)| ==> c !in Words(s)[k]
    decreases |s|
  {
    var t := TrimStart(s, WhiteSpace);
    if t != [] {
      var n := WordLen(t);
      WordLenPositive(t);
      assert c !in t by {
        SuffixAvoids(s, |s| - |t|, c);
      }
      SuffixAvoids(t, n, c);
      PrefixAvoids(t, n, c);
      WordsAvoid(t[n..], c);
      var r := Words(s);
      assert r == [t[..n]] + Words(t[n..]);
      forall k | 0 <= k < |r| ensures c !in r[k] {
        if k > 0 {
          assert r[k] == Words(t[n..])[k - 1];
        }
      }
    }
  }

  lemma SuffixAvoids(s: string, m: nat, c: char)
    requires c !in s && m <= |s|
    ensures c !in s[m..]
  {
  }

  lemma PrefixAvoids(s: string, m: nat, c: char)
    requires c !in s && m <= |s|
    ensures c !in s[..m]
  {
  }

  /** The words of the spaced id: non-empty, without whitespace, '-' or '_'. */
  lemma SpacedWords(id: string)
    ensures forall k :: 0 <= k < |Words(Spaced(id))| ==>
      IsWord(Words(Spaced(id))[k]) && '-' !in Words(Spaced(id))[k] && '_' !in Words(Spaced(id))[k]
  {
    var s := Spaced(id);
    WordsAreWords(s);
    WordsAvoid(s, '-');
    WordsAvoid(s, '_');
  }

  /** Words joined by single spaces, with the separators the label may hold. */
  lemma {:induction false} JoinWords(ws: seq<string>)
    requires forall k :: 0 <= k < |ws| ==> IsWord(ws[k]) && '-' !in ws[k] && '_' !in ws[k]
    ensures GcText.IsNormalized(Join(ws, " "))
    ensures '-' !in Join(ws, " ") && '_' !in Join(ws, " ")
    ensures Join(ws, " ") == [] <==> ws == []
  {
    if |ws| == 1 {
      WordNormalized(ws[0]);
    } else if |ws| > 1 {
      JoinWords(ws[1..]);
      WordNormalized(ws[0]);
      GcText.NormalizedJoin(ws[0], Join(ws[1..], " "));
    }
  }

  lemma WordNormalized(w: string)
    requires IsWord(w)
    ensures GcText.IsNormalized(w)
  {
    assert forall i :: 0 <= i < |w| ==> w[i] in w;
  }

  /** Splitting on a character that no part holds undoes joining with it. */
  lemma {:induction false} SplitJoin(parts: seq<string>, c: char)
    requires |parts| >= 1 && forall k :: 0 <= k < |parts| ==> c !in parts[k]
    ensures Split(Join(parts, [c]), c) == parts
  {
    if |parts| == 1 {
      SplitWithoutSeparator(parts[0], c);
    } else {
      SplitJoin(parts[1..], c);
      SplitAtSeparator(parts[0], Join(parts[1..], [c]), c);
      assert parts == [parts[0]] + parts[1..];
    }
  }

  /** The label has no '-' or '_', no whitespace at its ends, no whitespace but single spaces
      between words, and each of its space-separated words is capitalized; it is empty exactly
      when the id holds no word. */
  lemma LabelShape(id: string)
    ensures var lbl := SeasonLabel(id);
      GcText.IsNormalized(lbl) && '-' !in lbl && '_' !in lbl &&
      (lbl == [] <==> Words(Spaced(id)) == []) &&
      (lbl != [] ==> forall k :: 0 <= k < |Split(lbl, ' ')| ==> IsCapitalized(Split(lbl, ' ')[k]))
  {
    var ws := Words(Spaced(id));
    var cs := CapitalizeAll(ws);
    SpacedWords(id);
    forall k | 0 <= k < |cs|
      ensures IsWord(cs[k]) && '-' !in cs[k] && '_' !in cs[k] && IsCapitalized(cs[k])
    {
      CapitalizedWord(ws[k]);
    }
    JoinWords(cs);
    if cs != [] {
      forall k | 0 <= k < |cs| ensures ' ' !in cs[k] {
        assert NoneIn(cs[k], WhiteSpace);
      }
      SplitJoin(cs, ' ');
    }
  }

  /** The words of the label are the capitalized words of the id: a label read back word by
      word gives `w.capitalize()` of each word, in order. */
  lemma LabelWords(id: string)
    requires Words(Spaced(id)) != []
    ensures Split(SeasonLabel(id), ' ') == CapitalizeAll(Words(Spaced(id)))
  {
    var cs := CapitalizeAll(Words(Spaced(id)));
    SpacedWords(id);
    forall k | 0 <= k < |cs| ensures ' ' !in cs[k] {
      CapitalizedWord(Words(Spaced(id))[k]);
      assert NoneIn(cs[k], WhiteSpace);
    }
    SplitJoin(cs, ' ');
  }

  // ---------------------------------------------------------------------------
  // season list

  /** The entry a directory name contributes: None for a name that is not a CSV file. */
  function SeasonOf(kind: Kind, fname: string): Option<Season>
  {
    if !IsCsvName(fname) then None
    else
      var id := SeasonId(kind, fname);
      Some(Season(id, SeasonLabel(id)))
  }

  /** The seasons appended by the loop over `os.listdir`, in listing order. */
  function Collected(kind: Kind, fnames: seq<string>): seq<Season>
  {
    if fnames == [] then []
    else
      var last := SeasonOf(kind, fnames[|fnames| - 1]);
      Collected(kind, fnames[..|fnames| - 1]) + (if last.Some? then [last.value] else [])
  }

  /** `key=lambda s: s["label"]`: labels compared as strings. */
  predicate SeasonBefore(a: Season, b: Season)
  {
    StringLess(a.seasonLabel, b.seasonLabel)
  }

  /** Python's `<` on strings: lexicographic by code point, a proper prefix first. */
  predicate StringLess(a: string, b: string)
  {
    b != [] && (a == [] || a[0] < b[0] || (a[0] == b[0] && StringLess(a[1..], b[1..])))
  }

  /** The season list: empty when the folder is missing, otherwise the CSV names' seasons
      sorted by label. */
  function Seasons(kind: Kind, isDir: bool, fnames: seq<string>): seq<Season>
  {
    if !isDir then [] else SortBy(Collected(kind, fnames), SeasonBefore)
  }

  /** `_list_hitting_seasons` / `_list_pitching_seasons` on the folder's existence and its
      listing. */
  method ListSeasons(kind: Kind, isDir: bool, fnames: seq<string>) returns (seasons: seq<Season>)
    ensures seasons == Seasons(kind, isDir, fnames)
  {
    if !isDir {
      return [];
    }
    seasons := [];
    for i := 0 to |fnames|
      invariant seasons == Collected(kind, fnames[..i])
    {
      CollectedStep(kind, fnames, i);
      var fname := fnames[i];
      if !IsCsvName(fname) {
        continue;
      }
      var seasonId := SeasonId(kind, fname);
      var lbl := SeasonLabel(seasonId);
      seasons := seasons + [Season(seasonId, lbl)];
    }
    assert fnames[..|fnames|] == fnames;
    seasons := SortBy(seasons, SeasonBefore);
  }

  lemma CollectedStep(kind: Kind, fnames: seq<string>, i: int)
    requires 0 <= i < |fnames|
    ensures Collected(kind, fnames[..i + 1]) ==
      Collected(kind, fnames[..i]) + (if SeasonOf(kind, fnames[i]).Some? then [SeasonOf(kind, fnames[i]).value] else [])
  {
    assert fnames[..i + 1][..i] == fnames[..i];
    assert fnames[..i + 1][i] == fnames[i];
  }

  lemma {:induction false} StringLessIrreflexive(a: string)
    ensures !StringLess(a, a)
  {
    if a != [] {
      StringLessIrreflexive(a[1..]);
    }
  }

  lemma {:induction false} StringLessTransitive(a: string, b: string, c: string)
    requires StringLess(a, b) && StringLess(b, c)
    ensures StringLess(a, c)
  {
    if a != [] && a[0] == b[0] && b[0] == c[0] {
      StringLessTransitive(a[1..], b[1..], c[1..]);
    }
  }

  lemma {:induction false} StringLessTotal(a: string, b: string)
    requires a != b
    ensures StringLess(a, b) || StringLess(b, a)
  {
    if a != [] && b != [] && a[0] == b[0] {
      assert a == [a[0]] + a[1..] && b == [b[0]] + b[1..];
      StringLessTotal(a[1..], b[1..]);
    }
  }

  /** Ordering by label is a strict weak order, so the stable sort applies. */
  lemma SeasonBeforeOrder()
    ensures StrictWeakOrder(SeasonBefore)
  {
    forall a: Season ensures !SeasonBefore(a, a) {
      StringLessIrreflexive(a.seasonLabel);
    }
    forall a: Season, b: Season, c: Season | SeasonBefore(a, b) && SeasonBefore(b, c)
      ensures SeasonBefore(a, c)
    {
      StringLessTransitive(a.seasonLabel, b.seasonLabel, c.seasonLabel);
    }
    forall a: Season, b: Season, c: Season | SeasonBefore(a, c)
      ensures SeasonBefore(a, b) || SeasonBefore(b, c)
    {
      if !SeasonBefore(a, b) {
        NotLessIsAtLeast(a.seasonLabel, b.seasonLabel);
        if b.seasonLabel != a.seasonLabel {
          StringLessTransitive(b.seasonLabel, a.seasonLabel, c.seasonLabel);
        }
      }
    }
  }

  lemma NotLessIsAtLeast(a: string, b: string)
    requires !StringLess(a, b)
    ensures a == b || StringLess(b, a)
  {
    if a != b {
      StringLessTotal(a, b);
    }
  }

  /** The list is ordered by label and holds exactly the seasons of the CSV names, each as
      often as its name is listed. */
  lemma SeasonsSorted(kind: Kind, fnames: seq<string>)
    ensures var r := Seasons(kind, true, fnames);
      (forall i, j :: 0 <= i < j < |r| ==> !StringLess(r[j].seasonLabel, r[i].seasonLabel)) &&
      multiset(r) == multiset(Collected(kind, fnames))
  {
    SeasonBeforeOrder();
    SortByCorrect(Collected(kind, fnames), SeasonBefore);
  }

  /** Seasons with equal labels keep their listing order. */
  lemma SeasonsStable(kind: Kind, fnames: seq<string>, z: Season)
    ensures TiedWith(Seasons(kind, true, fnames), z, SeasonBefore) == TiedWith(Collected(kind, fnames), z, SeasonBefore)
  {
    SeasonBeforeOrder();
    SortByStable(Collected(kind, fnames), z, SeasonBefore);
  }

  /** A season is collected exactly when some listed name is a CSV name giving it. */
  lemma {:induction false} CollectedMembers(kind: Kind, fnames: seq<string>, s: Season)
    ensures s in Collected(kind, fnames) <==> exists f :: f in fnames && SeasonOf(kind, f) == Some(s)
  {
    if fnames != [] {
      CollectedMembers(kind, fnames[..|fnames| - 1], s);
      CollectedLast(kind, fnames, s);
      LastOrInit(fnames, s, (g: string) => SeasonOf(kind, g));
    }
  }

  lemma CollectedLast(kind: Kind, fnames: seq<string>, s: Season)
    requires fnames != []
    ensures s in Collected(kind, fnames) <==>
      s in Collected(kind, fnames[..|fnames| - 1]) || SeasonOf(kind, fnames[|fnames| - 1]) == Some(s)
  {
  }

  /** Some name of a non-empty list maps to `s` exactly when the last one does or some earlier one does. */
  lemma LastOrInit(fnames: seq<string>, s: Season, of: string -> Option<Season>)
    requires fnames != []
    ensures (exists f :: f in fnames && of(f) == Some(s)) <==>
      (exists f :: f in fnames[..|fnames| - 1] && of(f) == Some(s)) || of(fnames[|fnames| - 1]) == Some(s)
  {
    var init := fnames[..|fnames| - 1];
    assert fnames == init + [fnames[|fnames| - 1]];
  }

  /** Every CSV name in an existing folder shows up in the list, with its id and label, and
      every listed season comes from such a name. */
  lemma SeasonsListed(kind: Kind, fnames: seq<string>, s: Season)
    ensures s in Seasons(kind, true, fnames) <==>
      exists f :: f in fnames && IsCsvName(f) && s == Season(SeasonId(kind, f), SeasonLabel(SeasonId(kind, f)))
  {
    SeasonsSorted(kind, fnames);
    assert s in Seasons(kind, true, fnames) <==> s in multiset(Collected(kind, fnames));
    CollectedMembers(kind, fnames, s);
  }

  // ---------------------------------------------------------------------------
  // csv routes

  /** The file names the route tries, in order. */
  function Candidates(kind: Kind, id: string): seq<string>
  {
    [Prefix(kind) + id + ".csv", id + ".csv"]
  }

  /** The first name the file test accepts. */
  function FirstExisting(names: seq<string>, isFile: string -> bool): (r: Option<string>)
  {
    if names == [] then None
    else if isFile(names[0]) then Some(names[0])
    else FirstExisting(names[1..], isFile)
  }

  /** `hitting_csv` / `pitching_csv`: the file to send, or the 404 abort. The existence test
      of `os.path.exists` is a parameter. */
  method FindCsv(kind: Kind, seasonId: string, isFile: string -> bool) returns (r: Result<string, int>)
    ensures r.Success? <==> FirstExisting(Candidates(kind, seasonId), isFile).Some?
    ensures r.Success? ==> r.value == FirstExisting(Candidates(kind, seasonId), isFile).value
    ensures r.Failure? ==> r.error == 404
  {
    var candidates := Candidates(kind, seasonId);
    for i := 0 to |candidates|
      invariant FirstExisting(candidates, isFile) == FirstExisting(candidates[i..], isFile)
    {
      if isFile(candidates[i]) {
        return Success(candidates[i]);
      }
      assert candidates[i..][1..] == candidates[i + 1..];
    }
    return Failure(404);
  }

  /** The first existing name is a listed name that exists, and no name before it exists;
      there is none exactly when no listed name exists. */
  lemma {:induction false} FirstExistingMeaning(names: seq<string>, isFile: string -> bool)
    ensures var r := FirstExisting(names, isFile);
      (r.Some? ==> exists i :: 0 <= i < |names| && names[i] == r.value && isFile(names[i]) &&
                                 forall j :: 0 <= j < i ==> !isFile(names[j])) &&
      (r.None? <==> forall i :: 0 <= i < |names| ==> !isFile(names[i]))
  {
    if names != [] {
      FirstExistingMeaning(names[1..], isFile);
      var r := FirstExisting(names, isFile);
      if isFile(names[0]) {
        assert names[0] == r.value;
      } else if r.Some? {
        var i :| 0 <= i < |names[1..]| && names[1..][i] == r.value && isFile(names[1..][i]) &&
                 forall j :: 0 <= j < i ==> !isFile(names[1..][j]);
        assert names[i + 1] == r.value;
        assert forall j :: 1 <= j < i + 1 ==> names[j] == names[1..][j - 1];
      } else {
        assert forall i :: 1 <= i < |names| ==> names[i] == names[1..][i - 1];
      }
    }
  }

  /** The prefixed file wins when it exists; the plain one is served only when the prefixed
      one is missing; with neither the route answers 404. */
  lemma CsvChoice(kind: Kind, id: string, isFile: string -> bool)
    ensures var prefixed, plain := Prefix(kind) + id + ".csv", id + ".csv";
      var r := FirstExisting(Candidates(kind, id), isFile);
      (isFile(prefixed) ==> r == Some(prefixed)) &&
      (!isFile(prefixed) && isFile(plain) ==> r == Some(plain)) &&
      (r == None <==> !isFile(prefixed) && !isFile(plain))
  {
    FirstExistingMeaning(Candidates(kind, id), isFile);
  }

  // ---------------------------------------------------------------------------
  // basic auth

  const DefaultUser: string := "coach"
  const DefaultPass: string := "changeme"

  /** `os.environ.get(name, default)`: a set variable wins, even when empty. */
  function Configured(env: Option<string>, default: string): string
  {
    env.GetOr(default)
  }

  /** `check_auth` against the configured user and password. */
  predicate CheckAuth(username: string, password: string, user: string, pass: string)
  {
    username == user && password == pass
  }

  datatype Credentials = Credentials(username: string, password: string)

  /** What `requires_auth` lets through: a request with credentials that pass `check_auth`,
      given the ACES_USER and ACES_PASS environment values. */
  predicate Authorized(auth: Option<Credentials>, envUser: Option<string>, envPass: Option<string>)
  {
    auth.Some? &&
    CheckAuth(auth.value.username, auth.value.password,
              Configured(envUser, DefaultUser), Configured(envPass, DefaultPass))
  }

  /** Access needs both the configured user and the configured password; without credentials
      there is none. */
  lemma AuthorizedMeaning(auth: Option<Credentials>, envUser: Option<string>, envPass: Option<string>)
    ensures Authorized(auth, envUser, envPass) <==>
      auth == Some(Credentials(Configured(envUser, DefaultUser), Configured(envPass, DefaultPass)))
    ensures auth.None? ==> !Authorized(auth, envUser, envPass)
  {
  }

  /** With neither variable set, exactly coach / changeme gets in; once ACES_USER is set to
      something else, the default user is refused. */
  lemma AuthDefaults(auth: Option<Credentials>, u: string)
    ensures Authorized(auth, None, None) <==> auth == Some(Credentials("coach", "changeme"))
    ensures u != "coach" ==> !Authorized(Some(Credentials("coach", "changeme")), Some(u), None)
  {
  }
}
