/** The course-code pattern both chatbot extractors search for: a
    department (CIIC, ICOM or INSO), at most one separator character, and
    four digits. The two extractors differ only in which characters may
    separate. */
module CourseCode {
  import opened Common
  import opened PyText

  const Departments: set<string> := {"CIIC", "ICOM", "INSO"}

  /** The class of the optional separator: `[-_]` in file names, `\s` in
      questions. */
  datatype Separator = DashOrUnderscore | Whitespace

  predicate IsSeparator(kind: Separator, c: char) {
    match kind
    case DashOrUnderscore => c == '-' || c == '_'
    case Whitespace => IsSpace(c)
  }

  /** `\d{4}` starting at `k`. */
  predicate FourDigits(t: string, k: int) {
    0 <= k && k + 4 <= |t| && forall m :: k <= m < k + 4 ==> IsDigit(t[m])
  }

  /** The separated form of the pattern matches at `i`. */
  predicate SeparatedAt(t: string, i: int, kind: Separator) {
    0 <= i && i + 4 < |t| && IsSeparator(kind, t[i + 4]) && FourDigits(t, i + 5)
  }

  /** The pattern matches at `i`: the department, then the separator and
      four digits, or the four digits straight away. Since no separator is
      a digit, at most one of the two applies. */
  predicate MatchAt(t: string, i: int, kind: Separator) {
    0 <= i && i + 4 <= |t| && t[i..i + 4] in Departments && (SeparatedAt(t, i, kind) || FourDigits(t, i + 4))
  }

  /** Group 2 of a match at `i`. */
  function CodeAt(t: string, i: int, kind: Separator): (r: string)
    requires MatchAt(t, i, kind)
    ensures |r| == 4 && forall m :: 0 <= m < 4 ==> IsDigit(r[m])
  {
    if SeparatedAt(t, i, kind) then t[i + 5..i + 9] else t[i + 4..i + 8]
  }

  /** `re.search` from position `i`: the leftmost match at or after `i`. */
  function SearchFrom(t: string, i: nat, kind: Separator): (r: Option<nat>)
    ensures r.Some? ==> i <= r.value && MatchAt(t, r.value, kind)
                        && forall j :: i <= j < r.value ==> !MatchAt(t, j, kind)
    ensures r.None? <==> forall j :: i <= j ==> !MatchAt(t, j, kind)
    decreases |t| - i
  {
    if i + 4 > |t| then None
    else if MatchAt(t, i, kind) then Some(i)
    else SearchFrom(t, i + 1, kind)
  }

  /** Upper-casing changes neither digits, separators nor the upper-case
      department names. */
  lemma UpperOfConcat(a: string, b: string)
    ensures Upper(a + b) == Upper(a) + Upper(b)
  {
  }

  predicate NoLowerCase(s: string) {
    forall k :: 0 <= k < |s| ==> !('a' <= s[k] <= 'z')
  }

  lemma UpperOfNoLowerCase(s: string)
    requires NoLowerCase(s)
    ensures Upper(s) == s
  {
  }

  predicate IsCode(code: string) {
    |code| == 4 && forall m :: 0 <= m < 4 ==> IsDigit(code[m])
  }

  /** A text that starts with a department, an allowed separator (or none)
      and four digits matches at its start. */
  lemma {:induction false} MatchAtStart(dept: string, sep: string, code: string, rest: string, kind: Separator)
    requires dept in Departments && IsCode(code)
    requires sep == [] || (|sep| == 1 && IsSeparator(kind, sep[0]))
    ensures var t := dept + sep + code + rest;
      && MatchAt(t, 0, kind) && t[0..4] == dept && CodeAt(t, 0, kind) == code
      && SearchFrom(t, 0, kind) == Some(0)
  {
    var t := dept + sep + code + rest;
    assert |dept| == 4;
    assert t[0..4] == dept;
    if sep == [] {
      assert t[4..8] == code;
      assert FourDigits(t, 4);
      assert !IsDigit(code[0]) ==> false;
      assert !SeparatedAt(t, 0, kind) by {
        assert t[4] == code[0];
        assert IsDigit(t[4]);
      }
    } else {
      assert t[4] == sep[0];
      assert t[5..9] == code;
      assert FourDigits(t, 5);
      assert SeparatedAt(t, 0, kind);
    }
  }

  /** Upper-casing a lower-cased text is upper-casing it. */
  lemma UpperOfLower(s: string)
    ensures Upper(Lower(s)) == Upper(s)
  {
  }

  predicate DigitFree(s: string) {
    forall k :: 0 <= k < |s| ==> !IsDigit(s[k])
  }

  /** Text without digits appended after `t` neither creates nor changes a
      match: every match ends in a digit, so it lies inside `t`. */
  lemma {:induction false} DigitFreeTail(t: string, s: string, kind: Separator)
    requires DigitFree(s)
    ensures forall i :: MatchAt(t + s, i, kind) <==> MatchAt(t, i, kind)
    ensures forall i :: MatchAt(t, i, kind) ==>
      (t + s)[i..i + 4] == t[i..i + 4] && CodeAt(t + s, i, kind) == CodeAt(t, i, kind)
  {
    var u := t + s;
    forall m | |t| <= m < |u|
      ensures !IsDigit(u[m])
    {
      assert u[m] == s[m - |t|];
    }
    forall k | 0 <= k
      ensures FourDigits(u, k) <==> FourDigits(t, k)
    {
      if FourDigits(u, k) {
        assert IsDigit(u[k + 3]);
        assert forall m :: k <= m < k + 4 ==> u[m] == t[m];
      }
      if FourDigits(t, k) {
        assert forall m :: k <= m < k + 4 ==> u[m] == t[m];
      }
    }
    forall i | 0 <= i
      ensures SeparatedAt(u, i, kind) <==> SeparatedAt(t, i, kind)
    {
      if SeparatedAt(u, i, kind) {
        assert FourDigits(t, i + 5);
      }
    }
    forall i | MatchAt(u, i, kind)
      ensures MatchAt(t, i, kind)
    {
      assert FourDigits(t, i + 5) || FourDigits(t, i + 4);
      assert u[i..i + 4] == t[i..i + 4];
    }
    forall i | MatchAt(t, i, kind)
      ensures MatchAt(u, i, kind) && u[i..i + 4] == t[i..i + 4] && CodeAt(u, i, kind) == CodeAt(t, i, kind)
    {
      assert u[i..i + 4] == t[i..i + 4];
      if SeparatedAt(t, i, kind) {
        assert u[i + 5..i + 9] == t[i + 5..i + 9];
      } else {
        assert u[i + 4..i + 8] == t[i + 4..i + 8];
      }
    }
  }

  /** The search depends only on where the pattern matches. */
  lemma SameMatchesSameSearch(t1: string, t2: string, kind: Separator)
    requires forall i :: MatchAt(t1, i, kind) <==> MatchAt(t2, i, kind)
    ensures SearchFrom(t1, 0, kind) == SearchFrom(t2, 0, kind)
  {
    var r1, r2 := SearchFrom(t1, 0, kind), SearchFrom(t2, 0, kind);
    if r1.Some? && r2.Some? {
      assert !(r1.value < r2.value);
      assert !(r2.value < r1.value);
    }
  }
}
