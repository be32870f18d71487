/** The statistics endpoints: the sections-by-day letter count and the
    query-parameter checks in front of the ranked reports. The report
    queries themselves are not modelled; their rows are inputs. */
module StatsHandler {
  import opened Common
  import opened PyText
  import opened Json
  import opened Http

  /** The day letters, in the order `day_count` is built and reported. */
  const Days: seq<char> := ['L', 'M', 'W', 'J', 'V', 'S', 'D']

  /** How often `d` occurs in `s`. */
  function Occurrences(s: string, d: char): nat {
    if s == [] then 0 else Occurrences(s[..|s| - 1], d) + (if s[|s| - 1] == d then 1 else 0)
  }

  /** How often `d` occurs over all rows' `cdays`. */
  function CountIn(rows: seq<string>, d: char): nat {
    if rows == [] then 0 else CountIn(rows[..|rows| - 1], d) + Occurrences(rows[|rows| - 1], d)
  }

  /** The letters of `s` that name a day. */
  function DayLetters(s: string): nat {
    if s == [] then 0 else DayLetters(s[..|s| - 1]) + (if s[|s| - 1] in Days then 1 else 0)
  }

  function Recognised(rows: seq<string>): nat {
    if rows == [] then 0 else Recognised(rows[..|rows| - 1]) + DayLetters(rows[|rows| - 1])
  }

  function DaySum(result: seq<(string, int)>): int {
    if result == [] then 0 else DaySum(result[..|result| - 1]) + result[|result| - 1].1
  }

  /** `getSectionsByDay()` over the `cdays` of the rows the query returned:
      a counter per day letter, raised once per occurrence of that letter,
      then reported in day order. */
  method SectionsByDay(rows: seq<string>) returns (result: seq<(string, int)>)
    ensures |result| == |Days|
    ensures forall k :: 0 <= k < |Days| ==> result[k] == ([Days[k]], CountIn(rows, Days[k]) as int)
    ensures DaySum(result) == Recognised(rows)
  {
    var dayCount: map<char, int> := map d | d in Days :: 0;
    var i := 0;
    while i < |rows|
      invariant 0 <= i <= |rows|
      invariant dayCount.Keys == set d | d in Days
      invariant forall d :: d in Days ==> dayCount[d] == CountIn(rows[..i], d)
    {
      dayCount := CountLetters(dayCount, rows[i]);
      assert rows[..i + 1][..i] == rows[..i];
      i := i + 1;
    }
    assert rows[..i] == rows;
    result := [];
    var k := 0;
    while k < |Days|
      invariant 0 <= k <= |Days|
      invariant |result| == k
      invariant forall m :: 0 <= m < k ==> result[m] == ([Days[m]], CountIn(rows, Days[m]) as int)
    {
      result := result + [([Days[k]], dayCount[Days[k]])];
      k := k + 1;
    }
    ReportTotal(rows, result);
  }

  /** The inner loop of `getSectionsByDay()`: each letter of `cdays` that
      has a counter raises it by one. */
  method CountLetters(counts: map<char, int>, cdays: string) returns (after: map<char, int>)
    ensures after.Keys == counts.Keys
    ensures forall d :: d in counts ==> after[d] == counts[d] + Occurrences(cdays, d)
  {
    after := counts;
    var j := 0;
    while j < |cdays|
      invariant 0 <= j <= |cdays|
      invariant after.Keys == counts.Keys
      invariant forall d :: d in counts ==> after[d] == counts[d] + Occurrences(cdays[..j], d)
    {
      var letter := cdays[j];
      assert cdays[..j + 1][..j] == cdays[..j];
      if letter in after {
        after := after[letter := after[letter] + 1];
      }
      j := j + 1;
    }
    assert cdays[..j] == cdays;
  }

  /** The occurrences of the seven letters in one string are its day
      letters. */
  lemma {:induction false} DayOccurrences(s: string)
    ensures Occurrences(s, 'L') + Occurrences(s, 'M') + Occurrences(s, 'W') + Occurrences(s, 'J')
          + Occurrences(s, 'V') + Occurrences(s, 'S') + Occurrences(s, 'D') == DayLetters(s)
  {
    if s != [] {
      DayOccurrences(s[..|s| - 1]);
    }
  }

  /** The seven counts add up to the number of recognised letters: every
      other character is ignored. */
  lemma {:induction false} CountsTotal(rows: seq<string>)
    ensures CountIn(rows, 'L') + CountIn(rows, 'M') + CountIn(rows, 'W') + CountIn(rows, 'J')
          + CountIn(rows, 'V') + CountIn(rows, 'S') + CountIn(rows, 'D') == Recognised(rows)
  {
    if rows != [] {
      CountsTotal(rows[..|rows| - 1]);
      DayOccurrences(rows[|rows| - 1]);
    }
  }

  /** What the report sums to. */
  lemma {:induction false} ReportTotal(rows: seq<string>, result: seq<(string, int)>)
    requires |result| == |Days|
    requires forall k :: 0 <= k < |Days| ==> result[k] == ([Days[k]], CountIn(rows, Days[k]) as int)
    ensures DaySum(result) == Recognised(rows)
  {
    CountsTotal(rows);
    assert result[..1][..0] == [];
    assert result[..2][..1] == result[..1];
    assert result[..3][..2] == result[..2];
    assert result[..4][..3] == result[..3];
    assert result[..5][..4] == result[..4];
    assert result[..6][..5] == result[..5];
    assert result[..7][..6] == result[..6];
    assert result[..7] == result;
    assert DaySum(result[..1]) == CountIn(rows, 'L');
    assert DaySum(result[..2]) == DaySum(result[..1]) + CountIn(rows, 'M');
    assert DaySum(result[..3]) == DaySum(result[..2]) + CountIn(rows, 'W');
    assert DaySum(result[..4]) == DaySum(result[..3]) + CountIn(rows, 'J');
    assert DaySum(result[..5]) == DaySum(result[..4]) + CountIn(rows, 'V');
    assert DaySum(result[..6]) == DaySum(result[..5]) + CountIn(rows, 'S');
  }

  /** A row adds its letters to the days they name and nothing else. */
  lemma {:induction false} OneMoreRow(rows: seq<string>, cdays: string, d: char)
    ensures CountIn(rows + [cdays], d) == CountIn(rows, d) + Occurrences(cdays, d)
    ensures d !in cdays ==> CountIn(rows + [cdays], d) == CountIn(rows, d)
  {
    assert (rows + [cdays])[..|rows|] == rows;
    if d !in cdays {
      NoOccurrences(cdays, d);
    }
  }

  lemma {:induction false} NoOccurrences(s: string, d: char)
    requires d !in s
    ensures Occurrences(s, d) == 0
  {
    if s != [] {
      assert s[|s| - 1] in s;
      assert forall k :: 0 <= k < |s| - 1 ==> s[..|s| - 1][k] == s[k];
      NoOccurrences(s[..|s| - 1], d);
    }
  }

  /** `{"day": d, "sections": n}` for each entry. */
  function DayReport(result: seq<(string, int)>): (r: Json)
    ensures r.JArr? && |r.items| == |result|
    ensures forall k :: 0 <= k < |result| ==>
      && r.items[k].JObj? && r.items[k].fields.Keys == {"day", "sections"}
      && r.items[k].fields["day"] == JStr(result[k].0) && r.items[k].fields["sections"] == JInt(result[k].1)
  {
    JArr(seq(|result|, k requires 0 <= k < |result| =>
      JObj(map["day" := JStr(result[k].0), "sections" := JInt(result[k].1)])))
  }

  /** `getTopDepartments`: `int(limit)` on the query text (1 when absent),
      400 for text that is no integer, then 400 outside 1..5. */
  function TopDepartmentsLimit(limitArg: Option<string>): (r: Guard<int>)
    ensures limitArg.None? ==> r == Go(1)
    ensures limitArg.Some? && PyIntParse(limitArg.value).None? ==> r == Stop(Msg(400, "limit must be an integer"))
    ensures limitArg.Some? && PyIntParse(limitArg.value).Some? ==>
      var n := PyIntParse(limitArg.value).value;
      r == if 1 <= n <= 5 then Go(n) else Stop(Msg(400, "limit must be between 1 and 5"))
  {
    var parsed := if limitArg.None? then Some(1) else PyIntParse(limitArg.value);
    match parsed
    case None => Stop(Msg(400, "limit must be an integer"))
    case Some(n) => if n < 1 || n > 5 then Stop(Msg(400, "limit must be between 1 and 5")) else Go(n)
  }

  /** `request.args.get("limit", type=int, default=5)`: text that `int()`
      rejects falls back to the default instead of failing. */
  function TypedLimit(limitArg: Option<string>): (r: int)
    ensures limitArg.Some? && PyIntParse(limitArg.value).Some? ==> r == PyIntParse(limitArg.value).value
    ensures limitArg.None? || PyIntParse(limitArg.value).None? ==> r == 5
  {
    if limitArg.Some? && PyIntParse(limitArg.value).Some? then PyIntParse(limitArg.value).value else 5
  }

  const ValidSemesters: set<string> := {"Fall", "Spring", "V1", "V2"}

  /** `semester and semester not in valid_semesters` rejects; an absent or
      empty semester is no filter. */
  predicate SemesterAccepted(semester: Option<string>) {
    semester.None? || semester.value == "" || semester.value in ValidSemesters
  }

  /** The checks of `getTopRoomsByUtilization` and
      `getLongestAverageMeetingDuration`: the limit, then the semester. */
  function RankedQueryGuard(limitArg: Option<string>, semester: Option<string>): (r: Guard<int>)
    ensures r.Go? <==> 1 <= TypedLimit(limitArg) <= 10 && SemesterAccepted(semester)
    ensures r.Go? ==> r.value == TypedLimit(limitArg)
    ensures !(1 <= TypedLimit(limitArg) <= 10) ==> r == Stop(Msg(400, "BAD REQUEST: Limit must be between 1 and 10"))
    ensures 1 <= TypedLimit(limitArg) <= 10 && !SemesterAccepted(semester) ==>
      r == Stop(Msg(400, "BAD REQUEST: Invalid semester value"))
  {
    var limit := TypedLimit(limitArg);
    if limit < 1 || limit > 10 then Stop(Msg(400, "BAD REQUEST: Limit must be between 1 and 10"))
    else if semester.Some? && semester.value != "" && semester.value !in ValidSemesters then
      Stop(Msg(400, "BAD REQUEST: Invalid semester value"))
    else Go(limit)
  }

  /** `orderby.lower() not in ["asc", "desc"]` rejects. */
  predicate OrderAccepted(order: string) {
    Lower(order) == "asc" || Lower(order) == "desc"
  }

  lemma DefaultOrderAccepted()
    ensures OrderAccepted("desc")
  {
    assert Lower("desc") == "desc";
  }

  /** `getMultiRoomClasses`: the same two checks, then `orderby` (default
      "desc"), compared case-insensitively. */
  function MultiRoomGuard(limitArg: Option<string>, semester: Option<string>, orderby: Option<string>): (r: Guard<(int, string)>)
    ensures RankedQueryGuard(limitArg, semester).Stop? ==> r == Stop(RankedQueryGuard(limitArg, semester).response)
    ensures r.Go? <==> RankedQueryGuard(limitArg, semester).Go?
                       && (orderby.None? || OrderAccepted(orderby.value))
    ensures r.Go? ==> r.value == (TypedLimit(limitArg), if orderby.None? then "desc" else orderby.value)
  {
    match RankedQueryGuard(limitArg, semester)
    case Stop(resp) => Stop(resp)
    case Go(limit) =>
      var order := if orderby.None? then "desc" else orderby.value;
      DefaultOrderAccepted();
      if !OrderAccepted(order) then Stop(Msg(400, "BAD REQUEST: orderby must be 'asc' or 'desc'"))
      else Go((limit, order))
  }

  /** Any casing of "asc" and "desc" is accepted. */
  lemma OrderCasing(order: string)
    requires order in {"ASC", "Asc", "DESC", "Desc"}
    ensures MultiRoomGuard(None, None, Some(order)).Go?
  {
    assert Lower("ASC") == "asc" && Lower("Asc") == "asc";
    assert Lower("DESC") == "desc" && Lower("Desc") == "desc";
  }

  /** A limit that is no integer is refused by the top-departments report
      but silently defaulted by the others. */
  lemma NonIntegerLimit()
    ensures TopDepartmentsLimit(Some("abc")) == Stop(Msg(400, "limit must be an integer"))
    ensures RankedQueryGuard(Some("abc"), None) == Go(5)
  {
    NotANumber("abc");
  }

  /** Text that starts with neither a sign nor a digit is no integer. */
  lemma NotANumber(s: string)
    requires s != [] && !IsSpace(s[0]) && !IsSpace(s[|s| - 1])
    requires s[0] != '+' && s[0] != '-' && !IsDigit(s[0])
    ensures PyIntParse(s).None?
  {
    StripOfNonSpace(s);
    assert !IsDigitGroups(s);
  }
}
