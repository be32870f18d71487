/** The pieces of Python's `str` behaviour the catalog relies on, for ASCII
    text: `isspace`, `strip`, `isdigit`, `upper`/`lower`, `split`, the `in`
    substring test, `str(n)` for integers and `int(s)` for strings. */
module PyText {
  import opened Common

  /** `c.isspace()`: space, \t \n \v \f \r and the separators \x1c-\x1f. The
      same set is what `strip()` removes and what the regular expression
      class `\s` matches. */
  predicate IsSpace(c: char) {
    c == ' ' || ('\t' <= c <= '\r') || ('\U{1C}' <= c <= '\U{1F}')
  }

  predicate IsBlank(s: string) {
    forall i :: 0 <= i < |s| ==> IsSpace(s[i])
  }

  /** `s.lstrip()` */
  function LStrip(s: string): (r: string)
    ensures |r| <= |s| && r == s[|s| - |r|..]
    ensures IsBlank(s[..|s| - |r|])
    ensures r != [] ==> !IsSpace(r[0])
  {
    if s != [] && IsSpace(s[0]) then
      var r := LStrip(s[1..]);
      assert s[1..][|s| - 1 - |r|..] == s[|s| - |r|..];
      assert forall k :: 1 <= k < |s| - |r| ==> s[k] == s[1..][..|s| - 1 - |r|][k - 1];
      r
    else s
  }

  /** `s.rstrip()` */
  function RStrip(s: string): (r: string)
    ensures |r| <= |s| && r == s[..|r|]
    ensures IsBlank(s[|r|..])
    ensures r != [] ==> !IsSpace(r[|r| - 1])
  {
    if s != [] && IsSpace(s[|s| - 1]) then
      var r := RStrip(s[..|s| - 1]);
      assert s[..|s| - 1][..|r|] == s[..|r|];
      assert forall k :: |r| <= k < |s| - 1 ==> s[k] == s[..|s| - 1][|r|..][k - |r|];
      r
    else s
  }

  /** `s.strip()`: the longest infix that neither starts nor ends with
      whitespace, obtained by removing only whitespace from both ends. */
  function Strip(s: string): (r: string)
    ensures exists i, j :: 0 <= i <= j <= |s| && r == s[i..j] && IsBlank(s[..i]) && IsBlank(s[j..])
    ensures r != [] ==> !IsSpace(r[0]) && !IsSpace(r[|r| - 1])
  {
    var l := LStrip(s);
    var r := RStrip(l);
    StripBounds(s, l, r);
    StripEnds(l, r);
    r
  }

  lemma StripEnds(l: string, r: string)
    requires |r| <= |l| && r == l[..|r|]
    requires l != [] ==> !IsSpace(l[0])
    requires r != [] ==> !IsSpace(r[|r| - 1])
    ensures r != [] ==> !IsSpace(r[0]) && !IsSpace(r[|r| - 1])
  {
    assert r != [] ==> r[0] == l[0];
  }

  /** Where the right-stripped part of a left-stripped text lies in it. */
  lemma StripBounds(s: string, l: string, r: string)
    requires |l| <= |s| && l == s[|s| - |l|..] && IsBlank(s[..|s| - |l|])
    requires |r| <= |l| && r == l[..|r|] && IsBlank(l[|r|..])
    ensures exists i, j :: 0 <= i <= j <= |s| && r == s[i..j] && IsBlank(s[..i]) && IsBlank(s[j..])
  {
    var i := |s| - |l|;
    var j := i + |r|;
    assert l == s[i..];
    assert r == s[i..j];
    assert s[j..] == l[|r|..];
    assert IsBlank(s[..i]) && IsBlank(s[j..]);
  }

  /** `s.strip() == ""` holds exactly for the all-whitespace strings. */
  lemma {:induction false} StripEmptyIffBlank(s: string)
    ensures Strip(s) == "" <==> IsBlank(s)
  {
    var r := Strip(s);
    var i, j :| 0 <= i <= j <= |s| && r == s[i..j] && IsBlank(s[..i]) && IsBlank(s[j..]);
    BlankAround(s, i, j);
  }

  /** A text whose ends around `s[i..j]` are blank is blank exactly when
      that infix is empty, the infix neither starting nor ending in
      whitespace. */
  lemma BlankAround(s: string, i: int, j: int)
    requires 0 <= i <= j <= |s| && IsBlank(s[..i]) && IsBlank(s[j..])
    requires s[i..j] != [] ==> !IsSpace(s[i])
    ensures s[i..j] == [] <==> IsBlank(s)
  {
    if i == j {
      forall k | 0 <= k < |s| ensures IsSpace(s[k]) {
        if k < i { assert s[..i][k] == s[k]; } else { assert s[j..][k - j] == s[k]; }
      }
    }
  }

  predicate IsDigit(c: char) {
    '0' <= c <= '9'
  }

  predicate AllDigits(s: string) {
    forall i :: 0 <= i < |s| ==> IsDigit(s[i])
  }

  /** `s.isdigit()` on ASCII text: non-empty and made of decimal digits. */
  predicate IsDigits(s: string) {
    |s| > 0 && AllDigits(s)
  }

  function DigitValue(c: char): nat
    requires IsDigit(c)
  {
    c as int - '0' as int
  }

  function DigitChar(d: nat): (c: char)
    requires d < 10
    ensures IsDigit(c) && DigitValue(c) == d
  {
    ('0' as int + d) as char
  }

  /** The number a string of decimal digits denotes. */
  function DigitsValue(s: string): nat
    requires AllDigits(s)
  {
    if s == [] then 0 else DigitsValue(s[..|s| - 1]) * 10 + DigitValue(s[|s| - 1])
  }

  /** `str(n)` for a natural number: the decimal digits of n. */
  function NatToString(n: nat): (r: string)
    ensures IsDigits(r) && DigitsValue(r) == n
    ensures n > 0 ==> r[0] != '0'
  {
    if n < 10 then [DigitChar(n)]
    else
      var prefix := NatToString(n / 10);
      var r := prefix + [DigitChar(n % 10)];
      assert r[..|r| - 1] == prefix;
      r
  }

  /** `str(i)` for an integer. */
  function IntToString(i: int): (r: string)
    ensures r != []
  {
    if i < 0 then "-" + NatToString(-i) else NatToString(i)
  }

  /** The digits of `s` with the underscores left out. */
  function WithoutUnderscores(s: string): (r: string)
    ensures |r| <= |s|
  {
    if s == [] then [] else (if s[0] == '_' then [] else [s[0]]) + WithoutUnderscores(s[1..])
  }

  /** Digits, optionally grouped by single underscores (`1_000`), as Python's
      `int()` accepts them: a digit at both ends and never two underscores in a row. */
  predicate IsDigitGroups(s: string) {
    && |s| > 0
    && IsDigit(s[0]) && IsDigit(s[|s| - 1])
    && (forall i :: 0 <= i < |s| ==> IsDigit(s[i]) || s[i] == '_')
    && (forall i :: 0 <= i < |s| - 1 ==> !DoubleUnderscoreAt(s, i))
  }

  predicate DoubleUnderscoreAt(s: string, i: int)
    requires 0 <= i < |s| - 1
  {
    s[i] == '_' && s[i + 1] == '_'
  }

  lemma {:induction false} WithoutUnderscoresAllDigits(s: string)
    requires forall i :: 0 <= i < |s| ==> IsDigit(s[i]) || s[i] == '_'
    ensures AllDigits(WithoutUnderscores(s))
  {
    if s != [] {
      WithoutUnderscoresAllDigits(s[1..]);
    }
  }

  lemma {:induction false} WithoutUnderscoresOfDigits(s: string)
    requires AllDigits(s)
    ensures WithoutUnderscores(s) == s
  {
    if s != [] {
      WithoutUnderscoresOfDigits(s[1..]);
    }
  }

  /** The value of a string of underscore-grouped digits. */
  function GroupsValue(s: string): nat
    requires IsDigitGroups(s)
  {
    WithoutUnderscoresAllDigits(s);
    DigitsValue(WithoutUnderscores(s))
  }

  /** `int(s)` for a str `s` in base 10: surrounding whitespace is ignored, one
      optional sign, then digit groups; None stands for the ValueError raised
      for anything else. */
  function PyIntParse(s: string): Option<int> {
    ParseStripped(Strip(s))
  }

  /** `int()` on text without surrounding whitespace. */
  function ParseStripped(t: string): Option<int> {
    if t != [] && (t[0] == '+' || t[0] == '-') then
      var body := t[1..];
      if IsDigitGroups(body) then
        var v: int := GroupsValue(body);
        Some(if t[0] == '-' then -v else v)
      else None
    else if IsDigitGroups(t) then Some(GroupsValue(t))
    else None
  }

  lemma NatToStringIsDigitGroups(n: nat)
    ensures IsDigitGroups(NatToString(n))
    ensures GroupsValue(NatToString(n)) == n
  {
    var r := NatToString(n);
    WithoutUnderscoresOfDigits(r);
  }

  lemma StripOfNonSpace(s: string)
    requires s != [] && !IsSpace(s[0]) && !IsSpace(s[|s| - 1])
    ensures Strip(s) == s
  {
  }

  /** `int(str(i)) == i`: the integer parser inverts the decimal rendering. */
  lemma {:induction false} PyIntParseIntToString(i: int)
    ensures PyIntParse(IntToString(i)) == Some(i)
  {
    if i < 0 {
      var n: nat := -i;
      var digits := NatToString(n);
      assert IntToString(i) == "-" + digits;
      NatToStringIsDigitGroups(n);
      NegatedGroups(digits);
    } else {
      ParseNatural(i);
    }
  }

  lemma {:induction false} ParseNatural(n: nat)
    ensures PyIntParse(NatToString(n)) == Some(n)
  {
    var r := NatToString(n);
    assert IsDigit(r[0]) && IsDigit(r[|r| - 1]);
    StripOfNonSpace(r);
    NatToStringIsDigitGroups(n);
    assert !(r[0] == '+' || r[0] == '-');
  }

  /** `int("-" + d)` for underscore-grouped digits `d`. */
  lemma NegatedGroups(digits: string)
    requires IsDigitGroups(digits)
    ensures PyIntParse("-" + digits) == Some(-(GroupsValue(digits) as int))
  {
    var r := "-" + digits;
    assert r[0] == '-' && r[|r| - 1] == digits[|digits| - 1];
    StripOfNonSpace(r);
    assert r[1..] == digits;
    SignedParse(r);
  }

  /** Unfolds `int(s)` for an already stripped string with a leading minus sign. */
  lemma SignedParse(r: string)
    requires Strip(r) == r && r != [] && r[0] == '-' && IsDigitGroups(r[1..])
    ensures PyIntParse(r) == Some(-(GroupsValue(r[1..]) as int))
  {
    assert ParseStripped(r) == Some(-(GroupsValue(r[1..]) as int));
  }

  function UpperChar(c: char): char {
    if 'a' <= c <= 'z' then (c as int - 32) as char else c
  }

  function LowerChar(c: char): char {
    if 'A' <= c <= 'Z' then (c as int + 32) as char else c
  }

  /** `s.upper()` on ASCII text. */
  function Upper(s: string): (r: string)
    ensures |r| == |s|
  {
    seq(|s|, i requires 0 <= i < |s| => UpperChar(s[i]))
  }

  /** `s.lower()` on ASCII text. */
  function Lower(s: string): (r: string)
    ensures |r| == |s|
  {
    seq(|s|, i requires 0 <= i < |s| => LowerChar(s[i]))
  }

  /** Upper-casing twice is upper-casing once. */
  lemma UpperIdempotent(s: string)
    ensures Upper(Upper(s)) == Upper(s)
  {
  }

  /** `sub in s` for strings. */
  predicate Contains(s: string, sub: string) {
    exists i :: 0 <= i <= |s| - |sub| && OccursAt(s, sub, i)
  }

  predicate OccursAt(s: string, sub: string, i: int)
    requires 0 <= i <= |s| - |sub|
  {
    s[i..i + |sub|] == sub
  }

  /** Joins parts with one separator between neighbours: `sep.join(parts)`. */
  function Join(parts: seq<string>, sep: char): string
    requires |parts| >= 1
  {
    if |parts| == 1 then parts[0] else parts[0] + [sep] + Join(parts[1..], sep)
  }

  /** `s.split(sep)` for a one-character separator: every occurrence of `sep`
      cuts, empty pieces are kept, so there is always at least one piece. */
  function Split(s: string, sep: char): (parts: seq<string>)
    ensures |parts| >= 1
    ensures forall k :: 0 <= k < |parts| ==> sep !in parts[k]
    ensures Join(parts, sep) == s
  {
    if s == [] then [""]
    else if s[0] == sep then
      var rest := Split(s[1..], sep);
      assert [s[0]] + s[1..] == s;
      [""] + rest
    else
      var rest := Split(s[1..], sep);
      var parts := [[s[0]] + rest[0]] + rest[1..];
      assert parts[1..] == rest[1..];
      assert s == [s[0]] + s[1..];
      parts
  }

  /** A string without the separator is one piece. */
  lemma {:induction false} SplitOfPiece(a: string, sep: char)
    requires sep !in a
    ensures Split(a, sep) == [a]
    decreases |a|
  {
    if a != [] {
      SplitOfPiece(a[1..], sep);
      assert [a[0]] + a[1..] == a;
    }
  }

  /** Splitting after a separator-free piece cuts exactly there. */
  lemma {:induction false} SplitAfterPiece(a: string, sep: char, rest: string)
    requires sep !in a
    ensures Split(a + [sep] + rest, sep) == [a] + Split(rest, sep)
    decreases |a|
  {
    var s := a + [sep] + rest;
    if a == [] {
      assert s[1..] == rest;
    } else {
      assert s[1..] == a[1..] + [sep] + rest;
      SplitAfterPiece(a[1..], sep, rest);
      assert [a[0]] + a[1..] == a;
    }
  }

  /** `sep.join(parts).split(sep) == parts` when no part holds the separator. */
  lemma {:induction false} SplitOfJoin(parts: seq<string>, sep: char)
    requires |parts| >= 1
    requires forall k :: 0 <= k < |parts| ==> sep !in parts[k]
    ensures Split(Join(parts, sep), sep) == parts
    decreases |parts|
  {
    if |parts| == 1 {
      SplitOfPiece(parts[0], sep);
    } else {
      SplitOfJoin(parts[1..], sep);
      SplitAfterPiece(parts[0], sep, Join(parts[1..], sep));
      assert [parts[0]] + parts[1..] == parts;
    }
  }
}
