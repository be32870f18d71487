/** The chatbot's handling of a question before retrieval: reading a
    course code out of it and enriching the text that is embedded. */
module ChatOllama {
  import opened Common
  import opened PyText
  import opened CourseCode

  /** `extract_course(question)`: the first match of
      `(CIIC|ICOM|INSO)\s?(\d{4})` in the upper-cased question, as the pair
      of its two groups, or (None, None). */
  function ExtractCourse(question: string): (r: (Option<string>, Option<string>))
    ensures r.0.None? <==> r.1.None?
    ensures r.0.None? <==> forall i :: !MatchAt(Upper(question), i, Whitespace)
    ensures r.0.Some? ==> r.0.value in Departments && IsCode(r.1.value)
    ensures r.0.Some? ==> exists i :: (
      && MatchAt(Upper(question), i, Whitespace)
      && Upper(question)[i..i + 4] == r.0.value && CodeAt(Upper(question), i, Whitespace) == r.1.value
      && forall j :: 0 <= j < i ==> !MatchAt(Upper(question), j, Whitespace))
  {
    var t := Upper(question);
    match SearchFrom(t, 0, Whitespace)
    case None => (None, None)
    case Some(i) => (Some(t[i..i + 4]), Some(CodeAt(t, i, Whitespace)))
  }

  /** A question that starts with a department in any casing, at most one
      whitespace character and four digits names that course. */
  lemma {:induction false} NamedCourse(dept: string, sep: string, code: string, rest: string)
    requires Upper(dept) in Departments && IsCode(code)
    requires sep == [] || (|sep| == 1 && IsSpace(sep[0]))
    ensures ExtractCourse(dept + sep + code + rest) == (Some(Upper(dept)), Some(code))
  {
    var d := Upper(dept);
    assert |dept| == 4;
    UpperOfConcat(dept, sep);
    UpperOfConcat(dept + sep, code);
    UpperOfConcat(dept + sep + code, rest);
    UpperOfNoLowerCase(sep);
    UpperOfNoLowerCase(code);
    assert Upper(dept + sep + code + rest) == d + sep + code + Upper(rest);
    MatchAtStart(d, sep, code, Upper(rest), Whitespace);
  }

  const TextbookKeywords: seq<string> := ["textbook", "book", "bibliography", "reading", "material"]
  const GradingKeywords: seq<string> := ["grade", "grading", "evaluation", "exam", "percent", "score", "assessment"]
  /** " textbooks bibliography required reading materials", word by word. */
  const TextbookSuffix := " textbooks" + " bibliography" + " required" + " reading" + " materials"
  /** " evaluation strategies grading percent breakdown", word by word. */
  const GradingSuffix := " evaluation" + " strategies" + " grading" + " percent" + " breakdown"

  /** `any(keyword in text for keyword in keywords)` */
  predicate AnyKeyword(text: string, keywords: seq<string>) {
    exists k :: 0 <= k < |keywords| && Contains(text, keywords[k])
  }

  /** "dept code: " when the question names a course, else nothing. */
  function CoursePrefix(question: string): (r: string)
    ensures ExtractCourse(question).0.None? <==> r == ""
    ensures ExtractCourse(question).0.Some? ==>
      r == ExtractCourse(question).0.value + " " + ExtractCourse(question).1.value + ": "
  {
    match ExtractCourse(question)
    case (Some(dept), Some(code)) => dept + " " + code + ": "
    case _ => ""
  }

  predicate EndsWith(s: string, suffix: string) {
    |suffix| <= |s| && s[|s| - |suffix|..] == suffix
  }

  /** The question asks about textbooks or reading material. */
  predicate AsksTextbooks(question: string) {
    AnyKeyword(Lower(question), TextbookKeywords)
  }

  /** The question asks about grading. */
  predicate AsksGrading(question: string) {
    AnyKeyword(Lower(question), GradingKeywords)
  }

  function TextbookPart(question: string): string {
    if AsksTextbooks(question) then TextbookSuffix else ""
  }

  function GradingPart(question: string): string {
    if AsksGrading(question) then GradingSuffix else ""
  }

  /** Where the four parts of `p + q + a + b` lie. */
  lemma Layout(p: string, q: string, a: string, b: string)
    ensures var r := p + q + a + b;
      && |p| + |q| <= |r| && r[..|p|] == p && r[|p|..|p| + |q|] == q
      && EndsWith(r, b) && EndsWith(r, a + b)
  {
    var r := p + q + a + b;
    assert r[..|p|] == p;
    assert r[|p|..|p| + |q|] == q;
    assert r[|r| - |b|..] == b;
    assert r[|r| - |a + b|..] == a + b;
  }

  /** The text `chat` embeds for a question: the course prefix, the
      question, then the textbook suffix before the grading suffix. */
  function EnhancedQuery(question: string): (r: string)
    ensures var p := CoursePrefix(question);
      && |p| + |question| <= |r| && r[..|p|] == p && r[|p|..|p| + |question|] == question
    ensures AsksGrading(question) ==> EndsWith(r, GradingSuffix)
    ensures AsksTextbooks(question) && AsksGrading(question) ==> EndsWith(r, TextbookSuffix + GradingSuffix)
    ensures AsksTextbooks(question) && !AsksGrading(question) ==> EndsWith(r, TextbookSuffix)
    ensures !AsksTextbooks(question) && !AsksGrading(question) ==> r == CoursePrefix(question) + question
  {
    Layout(CoursePrefix(question), question, TextbookPart(question), GradingPart(question));
    CoursePrefix(question) + question + TextbookPart(question) + GradingPart(question)
  }

  /** The query-enhancement steps of `chat`: the course prefix, then the
      textbook suffix, then the grading suffix, each added in place. */
  method EnhanceQuery(question: string) returns (enhanced: string)
    ensures enhanced == EnhancedQuery(question)
  {
    var (dept, code) := ExtractCourse(question);
    enhanced := question;
    if dept.Some? && code.Some? {
      enhanced := dept.value + " " + code.value + ": " + question;
    }
    assert enhanced == CoursePrefix(question) + question;
    if AsksTextbooks(question) {
      enhanced := enhanced + TextbookSuffix;
    }
    assert enhanced == CoursePrefix(question) + question + TextbookPart(question);
    if AsksGrading(question) {
      enhanced := enhanced + GradingSuffix;
    }
  }

  /** Lower-case letters and spaces only. */
  predicate LowerWords(s: string) {
    forall c :: c in s ==> c == ' ' || 'a' <= c <= 'z'
  }

  lemma LowerWordsDigitFree(s: string)
    requires LowerWords(s)
    ensures DigitFree(Upper(s))
  {
    forall k | 0 <= k < |s|
      ensures !IsDigit(Upper(s)[k])
    {
      assert s[k] in s;
    }
  }

  lemma {:induction false} SuffixesDigitFree(question: string)
    ensures DigitFree(Upper(TextbookPart(question) + GradingPart(question)))
  {
    TextbookWords();
    GradingWords();
    var a, b := TextbookPart(question), GradingPart(question);
    assert LowerWords(a) && LowerWords(b);
    LowerWordsDigitFree(a + b);
  }

  lemma TextbookWords()
    ensures LowerWords(TextbookSuffix)
  {
    assert LowerWords(" textbooks") && LowerWords(" bibliography") && LowerWords(" required");
    assert LowerWords(" reading") && LowerWords(" materials");
  }

  lemma GradingWords()
    ensures LowerWords(GradingSuffix)
  {
    assert LowerWords(" evaluation") && LowerWords(" strategies") && LowerWords(" grading");
    assert LowerWords(" percent") && LowerWords(" breakdown");
  }

  /** A question that names a course still names it after the prefix and
      any tail are added. */
  lemma KeepsFoundCourse(question: string, tail: string)
    requires ExtractCourse(question).0.Some?
    ensures ExtractCourse(CoursePrefix(question) + question + tail) == ExtractCourse(question)
  {
    var dept, code := ExtractCourse(question).0.value, ExtractCourse(question).1.value;
    PrefixedCourse(dept, code, question + tail);
    assert CoursePrefix(question) + question + tail == dept + " " + code + ": " + (question + tail);
  }

  /** The prefix `chat` writes names its course, whatever follows it. */
  lemma {:induction false} PrefixedCourse(dept: string, code: string, text: string)
    requires dept in Departments && IsCode(code)
    ensures ExtractCourse(dept + " " + code + ": " + text) == (Some(dept), Some(code))
  {
    assert dept + " " + code + ": " + text == dept + " " + code + (": " + text);
    UpperOfNoLowerCase(dept);
    NamedCourse(dept, " ", code, ": " + text);
  }

  /** A question that names no course gains none from a tail without
      digits. */
  lemma {:induction false} KeepsNoCourse(question: string, tail: string)
    requires ExtractCourse(question).0.None? && DigitFree(Upper(tail))
    ensures ExtractCourse(CoursePrefix(question) + question + tail) == (None, None)
  {
    assert CoursePrefix(question) + question + tail == question + tail;
    UpperOfConcat(question, tail);
    DigitFreeTail(Upper(question), Upper(tail), Whitespace);
    SameMatchesSameSearch(Upper(question + tail), Upper(question), Whitespace);
  }

  /** Enhancing a question keeps the course it names: the text that is
      embedded names the same course as the question, or none. (Retrieval
      filters by the course extracted from the question itself; this fact
      matters only for the embedding.) */
  lemma EnhancedKeepsCourse(question: string)
    ensures ExtractCourse(EnhancedQuery(question)) == ExtractCourse(question)
  {
    var a, b := TextbookPart(question), GradingPart(question);
    assert EnhancedQuery(question) == CoursePrefix(question) + question + (a + b);
    SuffixesDigitFree(question);
    if ExtractCourse(question).0.Some? {
      KeepsFoundCourse(question, a + b);
    } else {
      KeepsNoCourse(question, a + b);
    }
  }
}
