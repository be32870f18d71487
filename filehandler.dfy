/** The syllabus loader's two text helpers: reading the course out of a
    PDF's file name, and dropping the pages that hold no text. */
module FileHandler {
  import opened Common
  import opened PyText
  import opened CourseCode

  /** `extract_dept_code(filename)`: the first match of
      `(CIIC|ICOM|INSO)[-_]?(\d{4})` in the upper-cased name, as the pair
      of its two groups, or (None, None). */
  function ExtractDeptCode(filename: string): (r: (Option<string>, Option<string>))
    ensures r.0.None? <==> r.1.None?
    ensures r.0.None? <==> forall i :: !MatchAt(Upper(filename), i, DashOrUnderscore)
    ensures r.0.Some? ==> r.0.value in Departments && IsCode(r.1.value)
    ensures r.0.Some? ==> exists i :: (
      && MatchAt(Upper(filename), i, DashOrUnderscore)
      && Upper(filename)[i..i + 4] == r.0.value && CodeAt(Upper(filename), i, DashOrUnderscore) == r.1.value
      && forall j :: 0 <= j < i ==> !MatchAt(Upper(filename), j, DashOrUnderscore))
  {
    var t := Upper(filename);
    match SearchFrom(t, 0, DashOrUnderscore)
    case None => (None, None)
    case Some(i) => (Some(t[i..i + 4]), Some(CodeAt(t, i, DashOrUnderscore)))
  }

  /** A name that starts with a department in any casing, at most one '-'
      or '_' and four digits yields that department, upper-cased, and
      those digits, whatever follows. */
  lemma {:induction false} NamedFile(dept: string, sep: string, code: string, rest: string)
    requires Upper(dept) in Departments && IsCode(code)
    requires sep in {"", "-", "_"}
    ensures ExtractDeptCode(dept + sep + code + rest) == (Some(Upper(dept)), Some(code))
  {
    var d := Upper(dept);
    assert |dept| == 4;
    UpperOfConcat(dept, sep);
    UpperOfConcat(dept + sep, code);
    UpperOfConcat(dept + sep + code, rest);
    UpperOfNoLowerCase(sep);
    UpperOfNoLowerCase(code);
    assert Upper(dept + sep + code + rest) == d + sep + code + Upper(rest);
    MatchAtStart(d, sep, code, Upper(rest), DashOrUnderscore);
  }

  /** The casing of a file name does not matter. */
  lemma CaseInsensitive(filename: string)
    ensures ExtractDeptCode(Lower(filename)) == ExtractDeptCode(filename)
    ensures ExtractDeptCode(Upper(filename)) == ExtractDeptCode(filename)
  {
    UpperOfLower(filename);
    UpperIdempotent(filename);
  }

  /** Two separators are one too many. */
  lemma DoubleSeparator()
    ensures ExtractDeptCode("CIIC--4020") == (None, None)
  {
    var t := "CIIC--4020";
    assert Upper(t) == t;
    assert !MatchAt(t, 0, DashOrUnderscore) by {
      assert !IsDigit(t[4]) && !IsDigit(t[5]);
    }
    forall i | 1 <= i
      ensures !MatchAt(t, i, DashOrUnderscore)
    {
      if 1 <= i && i + 4 <= |t| {
        assert t[i..i + 4] !in Departments by {
          assert t[i..i + 4][3] == t[i + 3];
          assert t[i + 3] in "--4020";
        }
      }
    }
  }

  /** `delete_empty_pages(texts)`: the pages whose stripped text is not
      empty, in their order. */
  function DeleteEmptyPages(texts: seq<string>): (r: seq<string>)
    ensures forall t :: t in r <==> t in texts && Strip(t) != ""
    ensures |r| <= |texts|
  {
    if texts == [] then [] else Kept(texts[0]) + DeleteEmptyPages(texts[1..])
  }

  /** The page itself when it holds text, else nothing. */
  function Kept(t: string): seq<string> {
    if Strip(t) != "" then [t] else []
  }

  /** Pages are filtered one by one, so their order is kept. */
  lemma {:induction false} DeleteEmptyPagesAppend(a: seq<string>, b: seq<string>)
    ensures DeleteEmptyPages(a + b) == DeleteEmptyPages(a) + DeleteEmptyPages(b)
  {
    if a == [] {
      assert a + b == b;
    } else {
      assert (a + b)[1..] == a[1..] + b;
      DeleteEmptyPagesAppend(a[1..], b);
    }
  }

  /** A second pass removes nothing. */
  lemma {:induction false} DeleteEmptyPagesIdempotent(texts: seq<string>)
    ensures DeleteEmptyPages(DeleteEmptyPages(texts)) == DeleteEmptyPages(texts)
  {
    if texts != [] {
      DeleteEmptyPagesIdempotent(texts[1..]);
      DeleteEmptyPagesAppend(Kept(texts[0]), DeleteEmptyPages(texts[1..]));
      if Strip(texts[0]) != "" {
        assert [texts[0]][1..] == [];
      }
    }
  }

  /** The pages kept are exactly those that are not whitespace only. */
  lemma NoBlankPages(texts: seq<string>)
    ensures forall t :: t in DeleteEmptyPages(texts) <==> t in texts && !IsBlank(t)
  {
    forall t | t in texts {
      StripEmptyIffBlank(t);
    }
  }
}
