/**
  * The pieces of Python's `str` behaviour that the scrapers rely on:
  * strip/rstrip, lower/upper, startswith/endswith, `in`, split, `int(...)`
  * and decimal rendering of integers.  Whitespace is the set of characters
  * for which `str.isspace()` holds, which is also what `\s`, `split()` and
  * `strip()` use; case mapping is ASCII.
  */
module Text {
  import opened Wrappers

  /** Tab, newline, vertical tab, form feed, carriage return, the four information separators,
      space, NEL, no-break space, the Unicode space separators, and the line and paragraph
      separators. */
  const WhiteSpace: set<char> := {
    '\t', '\n', '\U{000B}', '\U{000C}', '\r', '\U{001C}', '\U{001D}', '\U{001E}', '\U{001F}',
    ' ', '\U{0085}', '\U{00A0}', '\U{1680}',
    '\U{2000}', '\U{2001}', '\U{2002}', '\U{2003}', '\U{2004}', '\U{2005}', '\U{2006}',
    '\U{2007}', '\U{2008}', '\U{2009}', '\U{200A}',
    '\U{2028}', '\U{2029}', '\U{202F}', '\U{205F}', '\U{3000}'}
  /** Membership in `WhiteSpace` as ranges of code points. */
  predicate SpaceChar(c: char)
  {
    ('\t' <= c <= '\r') || ('\U{001C}' <= c <= ' ') || c == '\U{0085}' || c == '\U{00A0}'
    || c == '\U{1680}' || ('\U{2000}' <= c <= '\U{200A}') || c == '\U{2028}' || c == '\U{2029}'
    || c == '\U{202F}' || c == '\U{205F}' || c == '\U{3000}'
  }

  lemma WhiteSpaceChar(c: char)
    ensures c in WhiteSpace <==> SpaceChar(c)
  {
  }

  const DigitChars: set<char> := {'0', '1', '2', '3', '4', '5', '6', '7', '8', '9'}

  predicate IsSpace(c: char) { c in WhiteSpace }

  predicate IsDigit(c: char) { '0' <= c <= '9' }


  predicate AllIn(s: string, cs: set<char>)
  {
    forall i :: 0 <= i < |s| ==> s[i] in cs
  }

  predicate NoneIn(s: string, cs: set<char>)
  {
    forall i :: 0 <= i < |s| ==> s[i] !in cs
  }

  // ---------------------------------------------------------------------------
  // strip / rstrip / lstrip

  /** `s.rstrip(chars)`: the longest prefix of `s` that does not end in one of `cs`. */
  function TrimEnd(s: string, cs: set<char>): (r: string)
    ensures |r| <= |s| && r == s[..|r|]
    ensures r == [] || r[|r| - 1] !in cs
    ensures forall i :: |r| <= i < |s| ==> s[i] in cs
    decreases |s|
  {
    if s != [] && s[|s| - 1] in cs then TrimEnd(s[..|s| - 1], cs) else s
  }

  /** `s.lstrip(chars)`: the longest suffix of `s` that does not start with one of `cs`. */
  function TrimStart(s: string, cs: set<char>): (r: string)
    ensures |r| <= |s| && r == s[|s| - |r|..]
    ensures r == [] || r[0] !in cs
    ensures forall i :: 0 <= i < |s| - |r| ==> s[i] in cs
    decreases |s|
  {
    if s != [] && s[0] in cs then
      var r := TrimStart(s[1..], cs);
      assert s[1..][|s| - 1 - |r|..] == s[|s| - |r|..];
      r
    else s
  }

  /** Neither end of `s` is one of `cs`. */
  predicate Trimmed(s: string, cs: set<char>)
  {
    s == [] || (s[0] !in cs && s[|s| - 1] !in cs)
  }

  /** `s.strip(chars)`. */
  function Trim(s: string, cs: set<char>): (r: string)
    ensures Trimmed(r, cs)
    ensures |r| <= |s|
  {
    TrimStart(TrimEnd(s, cs), cs)
  }

  /** Right-stripping past a tail made only of stripped characters lands where stripping the head does. */
  lemma {:induction false} TrimEndPastTail(a: string, b: string, cs: set<char>)
    requires AllIn(b, cs)
    ensures TrimEnd(a + b, cs) == TrimEnd(a, cs)
    decreases |b|
  {
    if b != [] {
      var b' := b[..|b| - 1];
      assert (a + b)[..|a + b| - 1] == a + b';
      assert AllIn(b', cs) by {
        assert forall i :: 0 <= i < |b'| ==> b'[i] == b[i];
      }
      TrimEndPastTail(a, b', cs);
    } else {
      assert a + b == a;
    }
  }

  /** `s.strip()`. */
  function Strip(s: string): (r: string)
    ensures Trimmed(r, WhiteSpace)
  {
    Trim(s, WhiteSpace)
  }

  /** Stripping whitespace around text that has none at its ends leaves that text. */
  lemma StripPadded(pre: string, d: string, post: string)
    requires AllIn(pre, WhiteSpace) && AllIn(post, WhiteSpace)
    requires d != [] && d[0] !in WhiteSpace && d[|d| - 1] !in WhiteSpace
    ensures Strip(pre + d + post) == d
  {
    TrimEndPastTail(pre + d, post, WhiteSpace);
    assert TrimEnd(pre + d, WhiteSpace) == pre + d;
    TrimStartPastHead(pre, d, WhiteSpace);
  }

  lemma {:induction false} TrimStartPastHead(a: string, b: string, cs: set<char>)
    requires AllIn(a, cs) && b != [] && b[0] !in cs
    ensures TrimStart(a + b, cs) == b
    decreases |a|
  {
    if a == [] {
      assert a + b == b;
    } else {
      assert (a + b)[1..] == a[1..] + b;
      assert AllIn(a[1..], cs) by {
        assert forall i :: 0 <= i < |a[1..]| ==> a[1..][i] == a[i + 1];
      }
      TrimStartPastHead(a[1..], b, cs);
    }
  }

  /** A string with neither end in `cs` is left alone by `Trim`. */
  lemma TrimFixpoint(s: string, cs: set<char>)
    requires Trimmed(s, cs)
    ensures Trim(s, cs) == s
  {
  }

  lemma TrimIdempotent(s: string, cs: set<char>)
    ensures Trim(Trim(s, cs), cs) == Trim(s, cs)
  {
    TrimFixpoint(Trim(s, cs), cs);
  }

  // ---------------------------------------------------------------------------
  // case, prefixes, substrings

  function LowerChar(c: char): char
  {
    if 'A' <= c <= 'Z' then (c as int + 32) as char else c
  }

  function UpperChar(c: char): char
  {
    if 'a' <= c <= 'z' then (c as int - 32) as char else c
  }

  /** `s.lower()` on ASCII letters. */
  function ToLower(s: string): (r: string)
    ensures |r| == |s|
    ensures forall i :: 0 <= i < |s| ==> r[i] == LowerChar(s[i])
  {
    if s == [] then [] else [LowerChar(s[0])] + ToLower(s[1..])
  }

  /** `s.upper()` on ASCII letters. */
  function ToUpper(s: string): (r: string)
    ensures |r| == |s|
    ensures forall i :: 0 <= i < |s| ==> r[i] == UpperChar(s[i])
  {
    if s == [] then [] else [UpperChar(s[0])] + ToUpper(s[1..])
  }

  /** `s.capitalize()`: first character upper case, the rest lower case. */
  function Capitalize(s: string): (r: string)
    ensures |r| == |s|
  {
    if s == [] then [] else [UpperChar(s[0])] + ToLower(s[1..])
  }

  predicate StartsWith(s: string, prefix: string)
  {
    prefix <= s
  }

  predicate EndsWith(s: string, suffix: string)
  {
    |suffix| <= |s| && s[|s| - |suffix|..] == suffix
  }

  /** Python's `needle in hay` for strings. */
  predicate Contains(hay: string, needle: string)
    decreases |hay|
  {
    needle <= hay || (hay != [] && Contains(hay[1..], needle))
  }

  predicate OccursAt(hay: string, needle: string, i: int)
  {
    0 <= i <= |hay| - |needle| && hay[i..i + |needle|] == needle
  }

  /** `Contains` finds exactly the needles that occur at some position of `hay`. */
  lemma {:induction false} ContainsAt(hay: string, needle: string)
    ensures Contains(hay, needle) <==> exists i :: OccursAt(hay, needle, i)
  {
    if needle <= hay {
      assert OccursAt(hay, needle, 0);
    } else if hay != [] {
      ContainsAt(hay[1..], needle);
      if Contains(hay[1..], needle) {
        var i :| OccursAt(hay[1..], needle, i);
        assert OccursAt(hay, needle, i + 1);
      }
      if exists i :: OccursAt(hay, needle, i) {
        var i :| OccursAt(hay, needle, i);
        assert i != 0;
        assert OccursAt(hay[1..], needle, i - 1);
      }
    }
  }

  /** `s.replace(a, b)` for single characters. */
  function ReplaceChar(s: string, a: char, b: char): (r: string)
    ensures |r| == |s|
    ensures forall i :: 0 <= i < |s| ==> r[i] == (if s[i] == a then b else s[i])
  {
    if s == [] then [] else [if s[0] == a then b else s[0]] + ReplaceChar(s[1..], a, b)
  }

  /** `s.replace(c, "")`: every occurrence of `c` removed, everything else kept in order. */
  function RemoveChar(s: string, c: char): (r: string)
    ensures c !in r
    ensures |r| <= |s|
    ensures c !in s ==> r == s
  {
    if s == [] then [] else (if s[0] == c then [] else [s[0]]) + RemoveChar(s[1..], c)
  }

  /** `s[:n]`. */
  function Take(s: string, n: nat): (r: string)
    ensures r <= s
    ensures |r| == if |s| <= n then |s| else n
  {
    if |s| <= n then s else s[..n]
  }

  // ---------------------------------------------------------------------------
  // split and join

  /** `s.split(sep)` for a one-character separator. */
  function Split(s: string, sep: char): (r: seq<string>)
    ensures |r| >= 1
    ensures forall k :: 0 <= k < |r| ==> sep !in r[k]
  {
    if s == [] then [[]]
    else
      var rest := Split(s[1..], sep);
      if s[0] == sep then [[]] + rest else [[s[0]] + rest[0]] + rest[1..]
  }

  /** `sep.join(parts)`. */
  function Join(parts: seq<string>, sep: string): string
  {
    if |parts| == 0 then []
    else if |parts| == 1 then parts[0]
    else parts[0] + sep + Join(parts[1..], sep)
  }

  /** Splitting on a character and joining with it gives the original string back. */
  lemma {:induction false} JoinSplit(s: string, sep: char)
    ensures Join(Split(s, sep), [sep]) == s
  {
    if s != [] {
      var rest := Split(s[1..], sep);
      JoinSplit(s[1..], sep);
      if s[0] == sep {
        assert Split(s, sep) == [[]] + rest;
      } else {
        var r := Split(s, sep);
        assert r == [[s[0]] + rest[0]] + rest[1..];
        if |rest| == 1 {
          assert Join(r, [sep]) == [s[0]] + rest[0];
        } else {
          assert rest == [rest[0]] + rest[1..];
          assert Join(rest, [sep]) == rest[0] + [sep] + Join(rest[1..], [sep]);
          assert r[1..] == rest[1..];
        }
      }
    }
  }

  /** Splitting at the first separator: the text before it, then the split of the rest. */
  lemma {:induction false} SplitAtSeparator(a: string, b: string, sep: char)
    requires sep !in a
    ensures Split(a + [sep] + b, sep) == [a] + Split(b, sep)
  {
    if a == [] {
      assert a + [sep] + b == [sep] + b;
      assert ([sep] + b)[1..] == b;
    } else {
      assert (a + [sep] + b)[1..] == a[1..] + [sep] + b;
      SplitAtSeparator(a[1..], b, sep);
      assert [a[0]] + a[1..] == a;
    }
  }

  /** Splitting at any occurrence of the separator splits the two sides independently. */
  lemma {:induction false} SplitConcat(a: string, b: string, sep: char)
    ensures Split(a + [sep] + b, sep) == Split(a, sep) + Split(b, sep)
  {
    if a == [] {
      assert a + [sep] + b == [sep] + b;
      assert ([sep] + b)[1..] == b;
    } else {
      SplitConcat(a[1..], b, sep);
      SplitConcatStep(a, b, sep);
    }
  }

  /** One step of SplitConcat: from the tail of `a` to all of `a`. */
  lemma SplitConcatStep(a: string, b: string, sep: char)
    requires a != []
    requires Split(a[1..] + [sep] + b, sep) == Split(a[1..], sep) + Split(b, sep)
    ensures Split(a + [sep] + b, sep) == Split(a, sep) + Split(b, sep)
  {
    var t := a + [sep] + b;
    assert t[0] == a[0] && t[1..] == a[1..] + [sep] + b;
    SplitConsStep(t, sep);
    SplitConsStep(a, sep);
    ConsPieces(a[0], sep, Split(t[1..], sep), Split(a[1..], sep), Split(b, sep), Split(t, sep), Split(a, sep));
  }

  /** The sequence algebra of SplitConcatStep, apart from `Split` itself. */
  lemma ConsPieces(c: char, sep: char, rest: seq<string>, ra: seq<string>, rb: seq<string>, st: seq<string>, sa: seq<string>)
    requires rest == ra + rb && |ra| >= 1
    requires st == if c == sep then [[]] + rest else [[c] + rest[0]] + rest[1..]
    requires sa == if c == sep then [[]] + ra else [[c] + ra[0]] + ra[1..]
    ensures st == sa + rb
  {
    if c != sep {
      ExtendFirstPiece(c, ra, rb);
    } else {
      assert [[]] + (ra + rb) == ([[]] + ra) + rb;
    }
  }

  lemma ExtendFirstPiece(c: char, ra: seq<string>, rb: seq<string>)
    requires |ra| >= 1
    ensures [[c] + (ra + rb)[0]] + (ra + rb)[1..] == ([[c] + ra[0]] + ra[1..]) + rb
  {
    assert (ra + rb)[0] == ra[0];
    assert (ra + rb)[1..] == ra[1..] + rb;
  }

  /** The recursion of `Split`, spelt out for a non-empty string. */
  lemma SplitConsStep(s: string, sep: char)
    requires s != []
    ensures var rest := Split(s[1..], sep);
      Split(s, sep) == if s[0] == sep then [[]] + rest else [[s[0]] + rest[0]] + rest[1..]
  {
  }

  lemma {:induction false} SplitWithoutSeparator(s: string, sep: char)
    requires sep !in s
    ensures Split(s, sep) == [s]
  {
    if s != [] {
      SplitWithoutSeparator(s[1..], sep);
      assert [s[0]] + s[1..] == s;
    }
  }

  /** A string splits into more than one piece exactly when it holds the separator. */
  lemma SplitHasPieces(s: string, sep: char)
    ensures |Split(s, sep)| >= 2 <==> sep in s
  {
    if sep in s {
      var i :| 0 <= i < |s| && s[i] == sep;
      assert s == s[..i] + [sep] + s[i + 1..];
      SplitConcat(s[..i], s[i + 1..], sep);
    } else {
      SplitWithoutSeparator(s, sep);
    }
  }

  /** The last element of `s.split(sep)`: `s.split(sep)[-1]`. */
  function LastPiece(s: string, sep: char): (r: string)
    ensures sep !in r
  {
    var parts := Split(s, sep);
    parts[|parts| - 1]
  }

  /** Length of the longest prefix of `s` without whitespace. */
  function WordLen(s: string): (n: nat)
    ensures n <= |s|
    ensures forall i :: 0 <= i < n ==> !IsSpace(s[i])
    ensures n < |s| ==> IsSpace(s[n])
  {
    if s == [] || IsSpace(s[0]) then 0 else 1 + WordLen(s[1..])
  }

  /** A non-empty string without whitespace. */
  predicate IsWord(w: string)
  {
    w != [] && NoneIn(w, WhiteSpace)
  }

  lemma WordLenPositive(t: string)
    requires t != [] && !IsSpace(t[0])
    ensures WordLen(t) >= 1 && IsWord(t[..WordLen(t)])
  {
  }

  /** `s.split()`: the maximal runs of non-whitespace characters, in order. */
  function Words(s: string): seq<string>
    decreases |s|
  {
    var t := TrimStart(s, WhiteSpace);
    if t == [] then []
    else
      var n := WordLen(t);
      WordLenPositive(t);
      [t[..n]] + Words(t[n..])
  }

  /** Every piece of `s.split()` is a non-empty run without whitespace. */
  lemma {:induction false} WordsAreWords(s: string)
    ensures forall k :: 0 <= k < |Words(s)| ==> IsWord(Words(s)[k])
    decreases |s|
  {
    var t := TrimStart(s, WhiteSpace);
    if t != [] {
      var n := WordLen(t);
      WordLenPositive(t);
      WordsAreWords(t[n..]);
      var r := Words(s);
      assert r == [t[..n]] + Words(t[n..]);
      forall k | 0 <= k < |r| ensures IsWord(r[k]) {
        if k > 0 {
          assert r[k] == Words(t[n..])[k - 1];
        }
      }
    }
  }

  // ---------------------------------------------------------------------------
  // integers

  function DigitValue(c: char): nat
    requires IsDigit(c)
  {
    c as int - '0' as int
  }

  function DigitChar(d: nat): (c: char)
    requires d < 10
    ensures IsDigit(c) && DigitValue(c) == d
  {
    ('0' as int + d) as char
  }

  lemma DigitsApart()
    ensures DigitChars !! WhiteSpace
  {
    forall c | c in DigitChars ensures c !in WhiteSpace {
      WhiteSpaceChar(c);
    }
  }

  /** A decimal digit is never whitespace. */
  lemma DigitNotSpace(c: char)
    requires IsDigit(c)
    ensures c !in WhiteSpace
  {
    WhiteSpaceChar(c);
  }

  predicate AllDigits(s: string)
  {
    forall i :: 0 <= i < |s| ==> IsDigit(s[i])
  }

  lemma AllDigitChars(s: string)
    ensures AllIn(s, DigitChars) <==> AllDigits(s)
  {
    assert forall c :: c in DigitChars <==> IsDigit(c);
  }

  /** The value of a string of decimal digits. */
  function DigitsValue(s: string): nat
    requires AllDigits(s)
  {
    if s == [] then 0 else DigitsValue(s[..|s| - 1]) * 10 + DigitValue(s[|s| - 1])
  }

  /** `str(n)` for a natural number. */
  function NatToString(n: nat): (s: string)
    ensures s != [] && AllDigits(s) && DigitsValue(s) == n
    ensures NoneIn(s, WhiteSpace) && '-' !in s
  {
    if n < 10 then
      DigitNotSpace(DigitChar(n));
      [DigitChar(n)]
    else
      var s := NatToString(n / 10) + [DigitChar(n % 10)];
      assert s[..|s| - 1] == NatToString(n / 10);
      DigitNotSpace(DigitChar(n % 10));
      s
  }

  /** `str(n)` for an integer. */
  function IntToString(n: int): (s: string)
    ensures s != [] && NoneIn(s, WhiteSpace)
  {
    if n < 0 then "-" + NatToString(-n) else NatToString(n)
  }

  /** Python's `int(s)` on a string: surrounding whitespace, an optional sign, decimal digits;
      `None` where Python raises ValueError. */
  function ParsePyInt(s: string): (r: Option<int>)
    ensures r.Some? ==> Strip(s) != []
  {
    ParseSignedDigits(Strip(s))
  }

  /** The part of `int()` after stripping: an optional sign and at least one digit. */
  function ParseSignedDigits(t: string): (r: Option<int>)
    ensures r.Some? ==> t != [] && t != "-" && t != "+"
  {
    if t != [] && (t[0] == '+' || t[0] == '-') then
      var ds := t[1..];
      if ds != [] && AllDigits(ds) then Some(if t[0] == '-' then 0 - DigitsValue(ds) else DigitsValue(ds))
      else None
    else if t != [] && AllDigits(t) then Some(DigitsValue(t))
    else None
  }

  /** `int()` strips its argument itself, so stripping first changes nothing. */
  lemma ParsePyIntStripped(s: string)
    ensures ParsePyInt(Strip(s)) == ParsePyInt(s)
  {
    TrimIdempotent(s, WhiteSpace);
  }

  /** Reading back what `str` wrote gives the same integer. */
  lemma ParsePyIntOfString(n: int)
    ensures ParsePyInt(IntToString(n)) == Some(n)
  {
    var s := IntToString(n);
    TrimFixpoint(s, WhiteSpace);
    if n < 0 {
      assert s[1..] == NatToString(-n);
    }
  }

  /** A cell holding `str(n)` reads back as `n`. */
  lemma ParsePyIntAt(cells: seq<string>, k: nat, n: int)
    requires k < |cells| && cells[k] == IntToString(n)
    ensures ParsePyInt(cells[k]) == Some(n)
  {
    ParsePyIntOfString(n);
  }

  /** Text that holds a character other than a sign, a digit or surrounding whitespace is rejected. */
  lemma ParsePyIntRejects(s: string, i: int)
    requires 0 <= i < |Strip(s)|
    requires !IsDigit(Strip(s)[i]) && Strip(s)[i] != '+' && Strip(s)[i] != '-'
    ensures ParsePyInt(s) == None
  {
  }

  /** Left-pad `s` with zeros to `width` characters. */
  function ZeroPad(s: string, width: nat): (r: string)
    ensures |r| == if |s| >= width then |s| else width
    ensures EndsWith(r, s)
    decreases width - |s|
  {
    if |s| >= width then s else ZeroPad("0" + s, width)
  }

  function Pow10(k: nat): (r: nat)
    ensures r >= 1
  {
    if k == 0 then 1 else 10 * Pow10(k - 1)
  }

  /** A string of `k` digits denotes a number below `10^k`. */
  lemma {:induction false} DigitsValueBound(s: string)
    requires AllDigits(s)
    ensures DigitsValue(s) < Pow10(|s|)
  {
    if s != [] {
      DigitsValueBound(s[..|s| - 1]);
    }
  }

  /** `str(n)` has at most `k` digits when `n < 10^k`. */
  lemma {:induction false} NatToStringLength(n: nat, k: nat)
    requires 1 <= k && n < Pow10(k)
    ensures |NatToString(n)| <= k
  {
    if n >= 10 {
      NatToStringLength(n / 10, k - 1);
    }
  }

  /** A leading zero does not change the value of a digit string. */
  lemma {:induction false} LeadingZero(s: string)
    requires AllDigits(s)
    ensures AllDigits("0" + s) && DigitsValue("0" + s) == DigitsValue(s)
  {
    if s != [] {
      var z := "0" + s;
      assert z[..|z| - 1] == "0" + s[..|s| - 1];
      LeadingZero(s[..|s| - 1]);
    }
  }

  /** Zero padding keeps a digit string's value. */
  lemma {:induction false} ZeroPadDigits(s: string, width: nat)
    requires AllDigits(s)
    ensures AllDigits(ZeroPad(s, width)) && DigitsValue(ZeroPad(s, width)) == DigitsValue(s)
    decreases width - |s|
  {
    if |s| < width {
      LeadingZero(s);
      ZeroPadDigits("0" + s, width);
    }
  }

  /** `int()` of a non-empty digit string is its value. */
  lemma ParsePyIntDigits(t: string)
    requires t != [] && AllDigits(t)
    ensures ParsePyInt(t) == Some(DigitsValue(t))
  {
    DigitNotSpace(t[0]);
    DigitNotSpace(t[|t| - 1]);
    TrimFixpoint(t, WhiteSpace);
  }

  // ---------------------------------------------------------------------------
  // the trailing-count regular expressions

  /** `text[p..]` is one or more whitespace characters followed by one or more characters of `cs`
      up to the end: the regular expression `\s+[cs]+$` matches at position `p`. */
  ghost predicate TailMatchesAt(text: string, cs: set<char>, p: int)
  {
    0 <= p < |text| &&
    exists q :: p < q < |text| && AllIn(text[p..q], WhiteSpace) && AllIn(text[q..], cs)
  }

  /** A match can start only inside the whitespace run before the trailing run of `cs`. */
  lemma TailMatchOnlyThere(text: string, cs: set<char>, p: int)
    requires cs !! WhiteSpace && TailMatchesAt(text, cs, p)
    ensures var a := TrimEnd(text, cs); var b := TrimEnd(a, WhiteSpace);
            |a| < |text| && |b| <= p < |a|
  {
    var q :| p < q < |text| && AllIn(text[p..q], WhiteSpace) && AllIn(text[q..], cs);
    assert text[q - 1] == text[p..q][q - 1 - p];
    TrimEndAt(text, cs, q);
    var a := TrimEnd(text, cs);
    forall i | p <= i < |a| ensures a[i] in WhiteSpace {
      assert a[i] == text[p..q][i - p];
    }
    TrimEndBelow(a, WhiteSpace, p);
  }

  /** A text whose characters from `q` on are in `cs`, and whose character before `q` is not,
      loses exactly its last `|text| - q` characters to `rstrip`. */
  lemma TrimEndAt(text: string, cs: set<char>, q: int)
    requires 0 < q <= |text| && AllIn(text[q..], cs) && text[q - 1] !in cs
    ensures |TrimEnd(text, cs)| == q
  {
    forall i | q <= i < |text| ensures text[i] in cs {
      assert text[i] == text[q..][i - q];
    }
  }

  /** When every character from `p` on is in `cs`, `rstrip` leaves at most `p` characters. */
  lemma TrimEndBelow(a: string, cs: set<char>, p: int)
    requires 0 <= p <= |a| && forall i :: p <= i < |a| ==> a[i] in cs
    ensures |TrimEnd(a, cs)| <= p
  {
  }

  /** Every position of that whitespace run starts a match. */
  lemma TailMatchThere(text: string, cs: set<char>, p: int)
    requires cs !! WhiteSpace
    ensures var a := TrimEnd(text, cs); var b := TrimEnd(a, WhiteSpace);
            |a| < |text| && |b| <= p < |a| ==> TailMatchesAt(text, cs, p)
  {
    var a := TrimEnd(text, cs);
    var b := TrimEnd(a, WhiteSpace);
    if |a| < |text| && |b| <= p < |a| {
      assert AllIn(text[p..|a|], WhiteSpace);
      assert AllIn(text[|a|..], cs);
    }
  }

  /** Where `\s+[cs]+$` matches: exactly at the positions of the whitespace run that precedes the
      maximal trailing run of `cs`, when both runs are non-empty. */
  lemma TailMatchesExactly(text: string, cs: set<char>, p: int)
    requires cs !! WhiteSpace
    ensures var a := TrimEnd(text, cs); var b := TrimEnd(a, WhiteSpace);
            TailMatchesAt(text, cs, p) <==> |a| < |text| && |b| <= p < |a|
  {
    if TailMatchesAt(text, cs, p) {
      TailMatchOnlyThere(text, cs, p);
    }
    TailMatchThere(text, cs, p);
  }


  /** The leftmost position `p >= minHead` at which `\s+[cs]+$` matches, returned as the text before it
      and the trailing run of `cs`.  With `minHead == 0` this is `re.search(r"\s+(cs+)$", text)`;
      with `minHead == 1` it is the lazy `(.+?)` group of `re.match(r"(.+?)\s+(cs+)$", text)`. */
  function SplitTrailing(text: string, cs: set<char>, minHead: nat): (r: Option<(string, string)>)
    requires cs !! WhiteSpace
    ensures r.Some? ==> |r.value.0| >= minHead && r.value.1 != [] && AllIn(r.value.1, cs)
    ensures r.Some? ==> r.value.0 <= text && EndsWith(text, r.value.1)
  {
    var a := TrimEnd(text, cs);
    var b := TrimEnd(a, WhiteSpace);
    var p := if |b| >= minHead then |b| else minHead;
    if |a| < |text| && p < |a| then Some((text[..p], text[|a|..])) else None
  }

  /** A head that ends in no whitespace, one space and a run of `cs`: the split falls between
      the head and the run. */
  lemma SplitTrailingAfterHead(head: string, cs: set<char>, tail: string, minHead: nat)
    requires cs !! WhiteSpace
    requires head != [] && Trimmed(head, WhiteSpace) && minHead <= |head|
    requires tail != [] && AllIn(tail, cs)
    ensures SplitTrailing(head + " " + tail, cs, minHead) == Some((head, tail))
  {
    var text := head + " " + tail;
    TrimEndPastTail(head + " ", tail, cs);
    var a := TrimEnd(text, cs);
    assert (head + " ")[|head|] == ' ';
    assert a == head + " ";
    TrimEndPastTail(head, " ", WhiteSpace);
    assert TrimEnd(a, WhiteSpace) == head;
    assert text[..|head|] == head;
    assert text[|a|..] == tail;
  }

  /** A text whose last character is not one of `cs` has no trailing run to split off. */
  lemma SplitTrailingNone(text: string, cs: set<char>, minHead: nat)
    requires cs !! WhiteSpace
    requires text == [] || text[|text| - 1] !in cs
    ensures SplitTrailing(text, cs, minHead) == None
  {
    assert TrimEnd(text, cs) == text;
  }

  /** `SplitTrailing` finds the leftmost match at or after `minHead`, and reports none only when
      there is none. */
  lemma SplitTrailingIsLeftmostMatch(text: string, cs: set<char>, minHead: nat)
    requires cs !! WhiteSpace
    ensures var r := SplitTrailing(text, cs, minHead);
      (r.Some? ==> TailMatchesAt(text, cs, |r.value.0|)) &&
      (r.Some? ==> forall p :: minHead <= p < |r.value.0| ==> !TailMatchesAt(text, cs, p)) &&
      (r.None? ==> forall p :: minHead <= p ==> !TailMatchesAt(text, cs, p))
  {
    forall p' ensures TailMatchesAt(text, cs, p') <==> |TrimEnd(text, cs)| < |text| && |TrimEnd(TrimEnd(text, cs), WhiteSpace)| <= p' < |TrimEnd(text, cs)| {
      TailMatchesExactly(text, cs, p');
    }
  }

}
