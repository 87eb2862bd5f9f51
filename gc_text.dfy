/**
  * scrape_gc_schedules.py: the text helpers `normalize_text`, `to_int` and `clean_name`.
  */
module GcText {
  import opened Wrappers
  import opened Text

  // ---------------------------------------------------------------------------
  // normalize_text

  /** No whitespace at either end, every whitespace character is a plain space, and no two
      spaces are adjacent: what `normalize_text` produces. */
  predicate IsNormalized(s: string)
  {
    Trimmed(s, WhiteSpace) && SingleSpaced(s)
  }

  predicate SingleSpaced(s: string)
  {
    (forall i :: 0 <= i < |s| && IsSpace(s[i]) ==> s[i] == ' ') &&
    (forall i :: 0 <= i < |s| - 1 ==> !(s[i] == ' ' && s[i + 1] == ' '))
  }

  /** `re.sub(r"\s+", " ", s)`: each maximal run of whitespace becomes one space. */
  function CollapseSpaces(s: string): (r: string)
    ensures SingleSpaced(r)
    ensures r == [] <==> s == []
    ensures s != [] && !IsSpace(s[0]) ==> r[0] == s[0]
    decreases |s|
  {
    if s == [] then []
    else if IsSpace(s[0]) then
      var t := TrimStart(s, WhiteSpace);
      assert |t| < |s|;
      var rest := CollapseSpaces(t);
      var r := " " + rest;
      assert forall i :: 1 <= i < |r| ==> r[i] == rest[i - 1];
      r
    else
      var rest := CollapseSpaces(s[1..]);
      var r := [s[0]] + rest;
      assert forall i :: 1 <= i < |r| ==> r[i] == rest[i - 1];
      r
  }

  /** A prefix or suffix of a single-spaced string is single-spaced. */
  lemma SingleSpacedSlices(s: string, n: nat)
    requires SingleSpaced(s) && n <= |s|
    ensures SingleSpaced(s[..n]) && SingleSpaced(s[n..])
  {
    assert forall i :: 0 <= i < |s| - n ==> s[n..][i] == s[n + i];
  }

  /** `normalize_text(t)`: None gives the empty string; otherwise whitespace runs are collapsed to
      one space and the ends are stripped. */
  function NormalizeText(t: Option<string>): (r: string)
    ensures IsNormalized(r)
    ensures t.None? ==> r == ""
  {
    match t
    case None => ""
    case Some(s) =>
      var c := CollapseSpaces(s);
      var e := TrimEnd(c, WhiteSpace);
      SingleSpacedSlices(c, |e|);
      var r := TrimStart(e, WhiteSpace);
      SingleSpacedSlices(e, |e| - |r|);
      assert r != [] ==> r[|r| - 1] == e[|e| - 1];
      r
  }

  /** A single-spaced string is its own whitespace collapse. */
  lemma {:induction false} CollapseFixpoint(s: string)
    requires SingleSpaced(s)
    ensures CollapseSpaces(s) == s
    decreases |s|
  {
    if s != [] {
      SingleSpacedSlices(s, 1);
      if IsSpace(s[0]) {
        assert s[0] == ' ';
        assert TrimStart(s, WhiteSpace) == s[1..] by {
          assert |s| > 1 ==> !IsSpace(s[1]);
        }
      }
      CollapseFixpoint(s[1..]);
      assert s == [s[0]] + s[1..];
    }
  }

  /** Text that is already normalized comes back unchanged. */
  lemma NormalizedFixpoint(s: string)
    requires IsNormalized(s)
    ensures NormalizeText(Some(s)) == s
  {
    CollapseFixpoint(s);
    TrimFixpoint(s, WhiteSpace);
  }

  /** `normalize_text` is idempotent. */
  lemma NormalizeTextIdempotent(t: Option<string>)
    ensures NormalizeText(Some(NormalizeText(t))) == NormalizeText(t)
  {
    NormalizedFixpoint(NormalizeText(t));
  }

  /** Two normalized, non-empty texts joined by one space form a normalized text. */
  lemma NormalizedJoin(a: string, b: string)
    requires IsNormalized(a) && a != [] && IsNormalized(b) && b != []
    ensures IsNormalized(a + " " + b)
  {
    var t := a + " " + b;
    assert forall i :: 0 <= i < |b| ==> t[|a| + 1 + i] == b[i];
    assert forall i :: 0 <= i < |a| ==> t[i] == a[i];
    assert t[|a|] == ' ';
    forall i | 0 <= i < |t| - 1
      ensures !(t[i] == ' ' && t[i + 1] == ' ')
    {
      if i + 1 < |a| {
      } else if i + 1 == |a| {
      } else if i == |a| {
      } else {
        assert t[i] == b[i - |a| - 1] && t[i + 1] == b[i - |a|];
      }
    }
  }

  // ---------------------------------------------------------------------------
  // to_int

  /** `int(float(v))` for stripped plain decimal text `[+-]digits.digits` with at least one digit:
      the integer part, truncated toward zero. */
  function DecimalTruncated(t: string): (r: Option<int>)
  {
    var body := if t != [] && (t[0] == '+' || t[0] == '-') then t[1..] else t;
    var parts := Split(body, '.');
    if |parts| == 2 && AllDigits(parts[0]) && AllDigits(parts[1]) && |parts[0]| + |parts[1]| > 0 then
      var whole := DigitsValue(parts[0]);
      Some(if t[0] == '-' then 0 - whole else whole)
    else None
  }

  /** `to_int(value)`: 0 for None, empty text and "-"; the integer for integer text; the truncated value
      for decimal text; 0 for anything else (it never raises). */
  function ToInt(value: Option<string>): (r: int)
    ensures value.None? ==> r == 0
  {
    match value
    case None => 0
    case Some(s) =>
      var v := Strip(s);
      if v == "" || v == "-" then 0
      else
        match ParsePyInt(v)
        case Some(n) => n
        case None =>
          match DecimalTruncated(v)
          case Some(n) => n
          case None => 0
  }

  /** Whatever `int()` accepts, `to_int` returns unchanged. */
  lemma ToIntAgreesWithInt(s: string)
    requires ParsePyInt(s).Some?
    ensures ToInt(Some(s)) == ParsePyInt(s).value
  {
    ParsePyIntStripped(s);
  }

  /** Blank text reads as 0. */
  lemma ToIntBlank(s: string)
    requires AllIn(s, WhiteSpace)
    ensures ToInt(Some(s)) == 0
  {
    TrimEndPastTail([], s, WhiteSpace);
    assert [] + s == s;
  }

  /** The "-" placeholder of an empty cell reads as 0, whatever whitespace surrounds it. */
  lemma ToIntDash(pre: string, post: string)
    requires AllIn(pre, WhiteSpace) && AllIn(post, WhiteSpace)
    ensures ToInt(Some(pre + "-" + post)) == 0
  {
    StripPadded(pre, "-", post);
  }

  /** Text that is neither an integer nor a plain decimal gives 0 instead of an error. */
  lemma ToIntNonNumeric(s: string)
    requires ParsePyInt(s).None? && DecimalTruncated(Strip(s)).None?
    ensures ToInt(Some(s)) == 0
  {
    ParsePyIntStripped(s);
  }

  /** `to_int(str(n))` is `n`. */
  lemma ToIntOfString(n: int)
    ensures ToInt(Some(IntToString(n))) == n
  {
    ParsePyIntOfString(n);
    ToIntAgreesWithInt(IntToString(n));
  }

  /** Text holding a "." is never an integer literal. */
  lemma {:induction false} DotIsNotInt(t: string, i: nat)
    requires i < |t| && t[i] == '.'
    ensures ParseSignedDigits(t) == None
  {
    if t[0] == '+' || t[0] == '-' {
      assert i > 0 && t[1..][i - 1] == '.';
    }
  }

  /** The decimal reading of "n.frac" is `n`. */
  lemma DecimalOfString(n: int, frac: string)
    requires AllDigits(frac)
    ensures DecimalTruncated(IntToString(n) + "." + frac) == Some(n)
  {
    var ds := NatToString(if n < 0 then -n else n);
    DecimalBody(n, frac);
    DotPieces(ds, frac);
  }

  /** Without its sign, "n.frac" is the digits of `n`, a dot and the fraction. */
  lemma DecimalBody(n: int, frac: string)
    ensures var s := IntToString(n) + "." + frac;
      var ds := NatToString(if n < 0 then -n else n);
      s != [] && (s[0] == '-' <==> n < 0) && s[0] != '+' &&
      (if s[0] == '-' then s[1..] else s) == ds + ['.'] + frac
  {
    var ds := NatToString(if n < 0 then -n else n);
    var s := IntToString(n) + "." + frac;
    if n < 0 {
      assert s == ['-'] + (ds + ['.'] + frac);
    } else {
      assert s[0] == ds[0] && IsDigit(ds[0]);
    }
  }

  /** Digits and a fraction joined by a dot split into the two. */
  lemma DotPieces(ds: string, frac: string)
    requires AllDigits(ds) && AllDigits(frac)
    ensures Split(ds + ['.'] + frac, '.') == [ds, frac]
  {
    assert '.' !in ds && '.' !in frac;
    SplitAtSeparator(ds, frac, '.');
    SplitWithoutSeparator(frac, '.');
  }

  /** Decimal text is truncated toward zero: `to_int("n.frac")` is `n` (for instance "-3.7" gives -3). */
  lemma ToIntTruncates(n: int, frac: string)
    requires AllDigits(frac)
    ensures ToInt(Some(IntToString(n) + "." + frac)) == n
  {
    var s := IntToString(n) + "." + frac;
    DecimalTextTrimmed(n, frac);
    TrimFixpoint(s, WhiteSpace);
    DotIsNotInt(s, |IntToString(n)|);
    DecimalOfString(n, frac);
  }

  /** "n.frac" has no whitespace at either end. */
  lemma DecimalTextTrimmed(n: int, frac: string)
    requires AllDigits(frac)
    ensures Trimmed(IntToString(n) + "." + frac, WhiteSpace)
  {
    var s := IntToString(n) + "." + frac;
    assert s[0] == IntToString(n)[0] && IntToString(n)[0] !in WhiteSpace;
    if frac != [] {
      assert s[|s| - 1] == frac[|frac| - 1];
      DigitNotSpace(frac[|frac| - 1]);
    } else {
      assert s[|s| - 1] == '.';
      WhiteSpaceChar('.');
    }
  }

  // ---------------------------------------------------------------------------
  // clean_name

  /** `re.split(r"\(", name, 1)[0]`: everything before the first "(". */
  function BeforeParen(s: string): (r: string)
    ensures r <= s && '(' !in r
    ensures |r| < |s| ==> s[|r|] == '('
  {
    if s == [] || s[0] == '(' then [] else [s[0]] + BeforeParen(s[1..])
  }

  /** No "#" is directly followed by a digit. */
  predicate NoJerseyNumber(s: string)
  {
    forall i :: 0 <= i < |s| - 1 ==> !(s[i] == '#' && IsDigit(s[i + 1]))
  }

  /** `re.sub(r"#\d+", "", s)`: every "#" followed by digits is removed together with all of those digits. */
  function DropJerseyNumbers(s: string): (r: string)
    ensures NoJerseyNumber(r)
    ensures s == [] || !IsDigit(s[0]) ==> r == [] || !IsDigit(r[0])
    ensures '(' !in s ==> '(' !in r
    decreases |s|
  {
    if s == [] then []
    else if |s| >= 2 && s[0] == '#' && IsDigit(s[1]) then
      var rest := TrimStart(s[1..], DigitChars);
      NotDigitAfterRun(rest);
      DropJerseyNumbers(rest)
    else
      var rest := DropJerseyNumbers(s[1..]);
      var r := [s[0]] + rest;
      assert forall i :: 1 <= i < |r| ==> r[i] == rest[i - 1];
      r
  }

  /** Text that does not start with a digit character does not start with a digit. */
  lemma NotDigitAfterRun(rest: string)
    requires rest == [] || rest[0] !in DigitChars
    ensures rest == [] || !IsDigit(rest[0])
  {
  }

  /** Without any "#<digit>", `DropJerseyNumbers` changes nothing. */
  lemma {:induction false} DropJerseyFixpoint(s: string)
    requires NoJerseyNumber(s)
    ensures DropJerseyNumbers(s) == s
  {
    if s != [] {
      assert !(|s| >= 2 && s[0] == '#' && IsDigit(s[1]));
      DropJerseyFixpoint(s[1..]);
      assert [s[0]] + s[1..] == s;
    }
  }

  /** Any stretch of a string without "#<digit>" is itself without one. */
  lemma NoJerseySlice(s: string, lo: nat, hi: nat)
    requires NoJerseyNumber(s) && lo <= hi <= |s|
    ensures NoJerseyNumber(s[lo..hi])
  {
    var t := s[lo..hi];
    forall i | 0 <= i < |t| - 1
      ensures !(t[i] == '#' && IsDigit(t[i + 1]))
    {
      assert t[i] == s[lo + i] && t[i + 1] == s[lo + i + 1];
    }
  }

  /** Collapsing whitespace cannot put a digit right after a "#". */
  lemma {:induction false} CollapseKeepsNoJersey(s: string)
    requires NoJerseyNumber(s)
    ensures NoJerseyNumber(CollapseSpaces(s))
    decreases |s|
  {
    if s != [] {
      var r := CollapseSpaces(s);
      if IsSpace(s[0]) {
        var t := TrimStart(s, WhiteSpace);
        NoJerseySlice(s, |s| - |t|, |s|);
        CollapseKeepsNoJersey(t);
        var rest := CollapseSpaces(t);
        assert r == " " + rest;
        forall i | 0 <= i < |r| - 1
          ensures !(r[i] == '#' && IsDigit(r[i + 1]))
        {
          if i > 0 {
            assert r[i] == rest[i - 1] && r[i + 1] == rest[i];
          }
        }
      } else {
        NoJerseySlice(s, 1, |s|);
        CollapseKeepsNoJersey(s[1..]);
        var rest := CollapseSpaces(s[1..]);
        assert r == [s[0]] + rest;
        forall i | 0 <= i < |r| - 1
          ensures !(r[i] == '#' && IsDigit(r[i + 1]))
        {
          if i > 0 {
            assert r[i] == rest[i - 1] && r[i + 1] == rest[i];
          } else if s[0] == '#' {
            assert !IsDigit(s[1]);
            if IsSpace(s[1]) {
              assert rest[0] == ' ';
            } else {
              assert rest[0] == s[1];
            }
          }
        }
      }
    }
  }

  /** Collapsing whitespace introduces no character but the space. */
  lemma {:induction false} CollapseKeepsAbsent(s: string, c: char)
    requires c !in s && c != ' '
    ensures c !in CollapseSpaces(s)
    decreases |s|
  {
    if s != [] {
      if IsSpace(s[0]) {
        var t := TrimStart(s, WhiteSpace);
        assert c !in t;
        CollapseKeepsAbsent(t, c);
      } else {
        assert c !in s[1..];
        CollapseKeepsAbsent(s[1..], c);
      }
    }
  }

  /** `normalize_text` neither adds a digit after a "#" nor any character other than the space. */
  lemma NormalizeKeeps(s: string)
    requires NoJerseyNumber(s)
    ensures NoJerseyNumber(NormalizeText(Some(s)))
    ensures '(' !in s ==> '(' !in NormalizeText(Some(s))
  {
    CollapseKeepsNoJersey(s);
    var c := CollapseSpaces(s);
    var lo, hi := NormalizeIsSlice(s);
    NoJerseySlice(c, lo, hi);
    if '(' !in s {
      CollapseKeepsAbsent(s, '(');
      AbsentFromSlice(c, lo, hi, '(');
    }
  }

  /** The normalized text is a stretch of the collapsed text. */
  lemma NormalizeIsSlice(s: string) returns (lo: nat, hi: nat)
    ensures lo <= hi <= |CollapseSpaces(s)|
    ensures NormalizeText(Some(s)) == CollapseSpaces(s)[lo..hi]
  {
    var c := CollapseSpaces(s);
    var e := TrimEnd(c, WhiteSpace);
    var r := TrimStart(e, WhiteSpace);
    lo, hi := |e| - |r|, |e|;
    assert r == c[lo..hi];
  }

  lemma AbsentFromSlice(s: string, lo: nat, hi: nat, x: char)
    requires lo <= hi <= |s| && x !in s
    ensures x !in s[lo..hi]
  {
  }

  /** `clean_name(name)`: drop everything from the first "(", remove each "#<digits>", then
      normalize whitespace; the empty name gives "". */
  function CleanName(name: string): (r: string)
    ensures '(' !in r
    ensures NoJerseyNumber(r)
    ensures IsNormalized(r)
  {
    if name == [] then ""
    else
      var d := DropJerseyNumbers(BeforeParen(name));
      NormalizeKeeps(d);
      NormalizeText(Some(d))
  }

  /** `clean_name` is idempotent. */
  lemma CleanNameIdempotent(name: string)
    ensures CleanName(CleanName(name)) == CleanName(name)
  {
    var c := CleanName(name);
    if c != [] {
      assert BeforeParen(c) == c by {
        BeforeParenFixpoint(c);
      }
      DropJerseyFixpoint(c);
      NormalizedFixpoint(c);
    }
  }

  lemma {:induction false} BeforeParenFixpoint(s: string)
    requires '(' !in s
    ensures BeforeParen(s) == s
  {
    if s != [] {
      BeforeParenFixpoint(s[1..]);
      assert [s[0]] + s[1..] == s;
    }
  }
}

