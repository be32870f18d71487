/** The meeting endpoints: the "HH:MM" time parser, the Monday/Wednesday
    time windows, the validation chain in front of INSERT and UPDATE, and the
    status mapping of DELETE. */
module MeetingHandler {
  import opened Common
  import opened PyText
  import opened Json
  import opened Http
  import opened Sql
  import opened Store
  import SectionDao
  import MeetingDao

  /** A Python `datetime`, compared field by field. */
  datatype DateTime = DateTime(year: int, month: int, day: int, hour: int, minute: int, second: int)

  /** `a < b` on datetimes: the lexicographic order of their fields. */
  predicate Before(a: DateTime, b: DateTime) {
    if a.year != b.year then a.year < b.year
    else if a.month != b.month then a.month < b.month
    else if a.day != b.day then a.day < b.day
    else if a.hour != b.hour then a.hour < b.hour
    else if a.minute != b.minute then a.minute < b.minute
    else a.second < b.second
  }

  /** `datetime.combine(datetime(1900, 1, 1), time(h, m))` */
  function Clock(h: int, m: int): DateTime {
    DateTime(1900, 1, 1, h, m, 0)
  }

  /** `t.hour * 60 + t.minute` */
  function MinuteOfDay(t: DateTime): int {
    t.hour * 60 + t.minute
  }

  /** Two clock readings of the same day compare as their minutes since
      midnight do. */
  lemma BeforeIsEarlierMinute(h1: int, m1: int, h2: int, m2: int)
    requires 0 <= m1 < 60 && 0 <= m2 < 60
    ensures Before(Clock(h1, m1), Clock(h2, m2)) <==> MinuteOfDay(Clock(h1, m1)) < MinuteOfDay(Clock(h2, m2))
  {
    if h1 < h2 {
      assert h1 * 60 + m1 < (h1 + 1) * 60 <= h2 * 60;
    } else if h2 < h1 {
      assert h2 * 60 + m2 < (h2 + 1) * 60 <= h1 * 60;
    }
  }

  /** The two-digit hours `%H` accepts: 00 to 23. */
  predicate HourPair(a: char, b: char) {
    (a == '2' && '0' <= b <= '3') || ((a == '0' || a == '1') && IsDigit(b))
  }

  /** The `%M` field followed by the end of the string: one digit, or two
      digits starting with 0 to 5. Anything longer is "unconverted data". */
  function ParseMinute(t: string): (r: Option<int>)
    ensures r.Some? ==> 0 <= r.value < 60
  {
    if |t| == 2 && '0' <= t[0] <= '5' && IsDigit(t[1]) then Some(DigitValue(t[0]) * 10 + DigitValue(t[1]))
    else if |t| == 1 && IsDigit(t[0]) then Some(DigitValue(t[0]))
    else None
  }

  /** `datetime.strptime(s, "%H:%M")`: hour and minute, or None for the
      ValueError. The hour takes one digit when a colon follows it, or two
      when they form 00 to 23 and a colon follows them. */
  function StrptimeHM(s: string): (r: Option<(int, int)>)
    ensures r.Some? ==> 0 <= r.value.0 < 24 && 0 <= r.value.1 < 60
  {
    if |s| >= 2 && IsDigit(s[0]) && s[1] == ':' then
      match ParseMinute(s[2..])
      case Some(m) => Some((DigitValue(s[0]), m))
      case None => None
    else if |s| >= 3 && HourPair(s[0], s[1]) && s[2] == ':' then
      match ParseMinute(s[3..])
      case Some(m) => Some((DigitValue(s[0]) * 10 + DigitValue(s[1]), m))
      case None => None
    else
      None
  }

  /** The zero-padded rendering of a number below 100. */
  function TwoDigits(n: nat): (r: string)
    requires n < 100
    ensures |r| == 2 && IsDigit(r[0]) && IsDigit(r[1]) && DigitValue(r[0]) * 10 + DigitValue(r[1]) == n
  {
    [DigitChar(n / 10), DigitChar(n % 10)]
  }

  /** Every time of day, written "HH:MM", parses back to itself. */
  lemma StrptimeOfRendering(h: nat, m: nat)
    requires h < 24 && m < 60
    ensures StrptimeHM(TwoDigits(h) + ":" + TwoDigits(m)) == Some((h, m))
  {
    var s := TwoDigits(h) + ":" + TwoDigits(m);
    assert s[0] == TwoDigits(h)[0] && s[1] == TwoDigits(h)[1] && s[2] == ':';
    assert s[3..] == TwoDigits(m);
    assert DigitValue(TwoDigits(m)[0]) <= 5;
  }

  /** The one-digit hour form "H:MM" is accepted too. */
  lemma StrptimeOfShortHour(h: nat, m: nat)
    requires h < 10 && m < 60
    ensures StrptimeHM([DigitChar(h)] + ":" + TwoDigits(m)) == Some((h, m))
  {
    var s := [DigitChar(h)] + ":" + TwoDigits(m);
    assert s[2..] == TwoDigits(m);
    assert DigitValue(TwoDigits(m)[0]) <= 5;
  }

  /** What `parse_time(x)` does with a request value. */
  datatype Parsed = Time(dt: DateTime) | ValueError | TypeError

  /** `parse_time(x)`: a str goes through `strptime`; anything else makes
      `strptime` raise TypeError. */
  function ParseTime(j: Json): (r: Parsed)
    ensures r.TypeError? <==> !j.JStr?
    ensures r.Time? ==> j.JStr? && exists h, m :: StrptimeHM(j.s) == Some((h, m)) && r.dt == Clock(h, m)
    ensures r.ValueError? <==> j.JStr? && StrptimeHM(j.s).None?
  {
    match j
    case JStr(s) =>
      (match StrptimeHM(s)
       case Some(hm) => Time(Clock(hm.0, hm.1))
       case None => ValueError)
    case _ => TypeError
  }

  const MorningStart: int := 7 * 60 + 30
  const MorningEnd: int := 10 * 60 + 15
  const AfternoonStart: int := 12 * 60 + 30
  const AfternoonEnd: int := 19 * 60 + 45

  const WindowMessage: string := "BAD REQUEST: MJ meetings must be within 7:30-10:15 or 12:30-19:45 (7:45pm)."

  /** `validate_meeting_time(cdays, start, end)`: an error reply when a
      Monday/Wednesday meeting is outside both windows, None otherwise. */
  function ValidateMeetingTime(cdays: Json, start: DateTime, end: DateTime): (r: Option<Response>)
    ensures r.Some? ==> cdays == JStr("MJ") && r.value == Msg(400, WindowMessage)
  {
    if cdays == JStr("MJ") then
      var s := MinuteOfDay(start);
      var e := MinuteOfDay(end);
      var inMorning := MorningStart <= s && e <= MorningEnd;
      var inAfternoon := AfternoonStart <= s && e <= AfternoonEnd;
      if !(inMorning || inAfternoon) then Some(Msg(400, WindowMessage)) else None
    else
      None
  }

  /** A Monday/Wednesday meeting that passes starts no earlier than 7:30,
      ends no later than 19:45, and never runs across the midday break; a
      Tuesday/Thursday/Friday meeting always passes. */
  lemma WindowsOfMJ(cdays: Json, start: DateTime, end: DateTime)
    requires MinuteOfDay(start) < MinuteOfDay(end)
    ensures cdays != JStr("MJ") ==> ValidateMeetingTime(cdays, start, end).None?
    ensures cdays == JStr("MJ") && ValidateMeetingTime(cdays, start, end).None? ==>
      && 450 <= MinuteOfDay(start) && MinuteOfDay(end) <= 1185
      && (MinuteOfDay(end) <= 615 || 750 <= MinuteOfDay(start))
    ensures cdays == JStr("MJ") && 450 <= MinuteOfDay(start) && MinuteOfDay(end) <= 1185
            && (MinuteOfDay(end) <= 615 || 750 <= MinuteOfDay(start)) ==>
      ValidateMeetingTime(cdays, start, end).None?
  {
  }

  /** The four fields both write endpoints require. */
  predicate HasMeetingFields(m: Payload) {
    "ccode" in m && "starttime" in m && "endtime" in m && "cdays" in m
  }

  /** No two meetings share a ccode. */
  predicate UniqueCcodes(meetings: map<int, MeetingRow>) {
    forall a, b :: a in meetings && b in meetings && a != b ==> meetings[a].ccode != meetings[b].ccode
  }

  /** The ccode lookup passes: no meeting other than `self` has the ccode
      `str(ccode)` names. */
  predicate CcodeFree(meetings: map<int, MeetingRow>, key: string, self: Option<int>) {
    var e := MeetingDao.MeetingByCcode(meetings, key);
    e.None? || (self.Some? && e.value == self.value)
  }

  /** The checks both `insertMeeting` and `updateMeeting` run once the four
      fields are known to be present: the day pattern, the two times, their
      order, the MJ windows, and the ccode's uniqueness. */
  function MeetingChecks(c: Catalog, m: Payload, self: Option<int>): (r: Guard<MeetingRow>)
    requires HasMeetingFields(m)
    ensures r.Go? ==>
      && (r.value.cdays == "MJ" || r.value.cdays == "LWV")
      && 0 <= r.value.starttime < r.value.endtime < 24 * 60
      && (r.value.cdays == "MJ" ==>
            (MorningStart <= r.value.starttime && r.value.endtime <= MorningEnd)
            || (AfternoonStart <= r.value.starttime && r.value.endtime <= AfternoonEnd))
    ensures r.Go? ==>
      && m["cdays"] == JStr(r.value.cdays)
      && ParseTime(m["starttime"]) == Time(Clock(r.value.starttime / 60, r.value.starttime % 60))
      && ParseTime(m["endtime"]) == Time(Clock(r.value.endtime / 60, r.value.endtime % 60))
      && TextColumn(m["ccode"]) == Some(r.value.ccode)
      && PyStr(m["ccode"]).Some? && CcodeFree(c.meetings, PyStr(m["ccode"]).value, self)
  {
    match MeetingTimes(m)
    case Stop(err) => Stop(err)
    case Go(t) =>
      match PyStr(m["ccode"])
      case None => Stop(Uncaught(DbException))
      case Some(key) =>
        if !CcodeFree(c.meetings, key, self) then
          Stop(Msg(400, "BAD REQUEST: Meeting with ccode " + key + " already exists."))
        else match TextColumn(m["ccode"])
          case None => Stop(Uncaught(DbException))
          case Some(code) => Go(MeetingRow(code, t.0, t.1, m["cdays"].s))
  }

  /** The checks on `cdays`, `starttime` and `endtime`, in the source's
      order: the accepted start and end as minutes since midnight. */
  function MeetingTimes(m: Payload): (r: Guard<(int, int)>)
    requires HasMeetingFields(m)
    ensures r.Go? ==>
      && (m["cdays"] == JStr("MJ") || m["cdays"] == JStr("LWV"))
      && 0 <= r.value.0 < r.value.1 < 24 * 60
      && (m["cdays"] == JStr("MJ") ==>
            (MorningStart <= r.value.0 && r.value.1 <= MorningEnd)
            || (AfternoonStart <= r.value.0 && r.value.1 <= AfternoonEnd))
      && ParseTime(m["starttime"]) == Time(Clock(r.value.0 / 60, r.value.0 % 60))
      && ParseTime(m["endtime"]) == Time(Clock(r.value.1 / 60, r.value.1 % 60))
  {
    var cdays := m["cdays"];
    if cdays != JStr("MJ") && cdays != JStr("LWV") then Stop(Msg(400, "BAD REQUEST: Invalid cdays value."))
    else match ParseTime(m["starttime"])
      case TypeError => Stop(Uncaught(TypeException))
      case ValueError => Stop(Msg(400, "BAD REQUEST: Time must be in HH:MM format."))
      case Time(st) =>
        match ParseTime(m["endtime"])
        case TypeError => Stop(Uncaught(TypeException))
        case ValueError => Stop(Msg(400, "BAD REQUEST: Time must be in HH:MM format."))
        case Time(en) =>
          if !Before(st, en) then Stop(Msg(400, "BAD REQUEST: Start time must be before end time."))
          else match ValidateMeetingTime(cdays, st, en)
            case Some(err) => Stop(err)
            case None =>
              MinuteOfParsed(m["starttime"]);
              MinuteOfParsed(m["endtime"]);
              BeforeIsEarlierMinute(st.hour, st.minute, en.hour, en.minute);
              Go((MinuteOfDay(st), MinuteOfDay(en)))
  }

  /** A parsed reading is a minute of the day and is recovered from it. */
  lemma MinuteOfParsed(j: Json)
    requires ParseTime(j).Time?
    ensures var t := ParseTime(j).dt;
      && 0 <= t.minute < 60 && 0 <= MinuteOfDay(t) < 24 * 60
      && t == Clock(MinuteOfDay(t) / 60, MinuteOfDay(t) % 60)
  {
    var h, mm :| StrptimeHM(j.s) == Some((h, mm)) && ParseTime(j).dt == Clock(h, mm);
    assert (h * 60 + mm) / 60 == h && (h * 60 + mm) % 60 == mm;
  }

  /** `insertMeeting(meeting)` up to the INSERT. */
  function InsertMeetingGuard(c: Catalog, m: Payload): (r: Guard<MeetingRow>)
    ensures !HasMeetingFields(m) ==> r == Stop(Msg(400, "BAD REQUEST: MISSING VALUES"))
    ensures HasMeetingFields(m) ==> r == MeetingChecks(c, m, None)
  {
    if !HasMeetingFields(m) then Stop(Msg(400, "BAD REQUEST: MISSING VALUES"))
    else MeetingChecks(c, m, None)
  }

  /** `updateMeeting(mid, meeting)` up to the UPDATE: the meeting must exist
      before the fields are even looked at. */
  function UpdateMeetingGuard(c: Catalog, mid: int, m: Payload): (r: Guard<MeetingRow>)
    ensures mid !in c.meetings ==> r == Stop(Msg(404, "NOT FOUND"))
    ensures mid in c.meetings && !HasMeetingFields(m) ==> r == Stop(Msg(400, "BAD REQUEST: MISSING VALUES"))
    ensures r.Go? ==> mid in c.meetings && r == MeetingChecks(c, m, Some(mid))
  {
    if mid !in c.meetings then Stop(Msg(404, "NOT FOUND"))
    else if !HasMeetingFields(m) then Stop(Msg(400, "BAD REQUEST: MISSING VALUES"))
    else MeetingChecks(c, m, Some(mid))
  }

  /** Flask's rendering of a `datetime` on 1 January 1900, a Monday. */
  function HttpDate(t: int): (r: string)
    requires 0 <= t < 24 * 60
    ensures |r| == 29 && r[..17] == "Mon, 01 Jan 1900 " && r[22..] == ":00 GMT"
  {
    "Mon, 01 Jan 1900 " + TwoDigits(t / 60) + ":" + TwoDigits(t % 60) + ":00 GMT"
  }

  /** `mapMeeting(row)` of the row the handler builds from the request: the
      ccode as sent, the times as parsed. */
  function MeetingJson(mid: int, ccode: Json, row: MeetingRow): (r: Json)
    requires 0 <= row.starttime < 24 * 60 && 0 <= row.endtime < 24 * 60
    ensures r.JObj? && r.fields.Keys == {"mid", "ccode", "starttime", "endtime", "cdays"}
    ensures r.fields["mid"] == JInt(mid) && r.fields["ccode"] == ccode && r.fields["cdays"] == JStr(row.cdays)
  {
    JObj(map["mid" := JInt(mid), "ccode" := ccode, "starttime" := JStr(HttpDate(row.starttime)),
             "endtime" := JStr(HttpDate(row.endtime)), "cdays" := JStr(row.cdays)])
  }

  /** The times in a meeting reply read back as the stored minutes. */
  lemma MeetingReplyTimes(mid: int, ccode: Json, row: MeetingRow)
    requires 0 <= row.starttime < 24 * 60 && 0 <= row.endtime < 24 * 60
    ensures var f := MeetingJson(mid, ccode, row).fields;
      && f["starttime"].JStr? && |f["starttime"].s| == 29
      && StrptimeHM(f["starttime"].s[17..22]) == Some((row.starttime / 60, row.starttime % 60))
      && f["endtime"].JStr? && |f["endtime"].s| == 29
      && StrptimeHM(f["endtime"].s[17..22]) == Some((row.endtime / 60, row.endtime % 60))
  {
    HttpDateRoundTrip(row.starttime);
    HttpDateRoundTrip(row.endtime);
  }

  /** The clock time inside a rendered time parses back to the stored minute. */
  lemma HttpDateRoundTrip(t: int)
    requires 0 <= t < 24 * 60
    ensures HttpDate(t)[17..22] == TwoDigits(t / 60) + ":" + TwoDigits(t % 60)
    ensures StrptimeHM(HttpDate(t)[17..22]) == Some((t / 60, t % 60))
    ensures MinuteOfDay(Clock(t / 60, t % 60)) == t
  {
    var prefix := "Mon, 01 Jan 1900 ";
    assert |prefix| == 17;
    assert HttpDate(t)[17..22] == TwoDigits(t / 60) + ":" + TwoDigits(t % 60);
    StrptimeOfRendering(t / 60, t % 60);
  }

  /** The ccode the pre-check looks up is the one that gets stored, unless
      the request sends it as a JSON boolean (`str(True)` is "True", the
      column receives "true"). */
  lemma LookupKeyIsStored(j: Json)
    requires TextColumn(j).Some? && PyStr(j).Some? && !j.JBool?
    ensures PyStr(j) == TextColumn(j)
  {
  }

  /** A new meeting under the next serial id keeps every invariant: no
      section uses it yet, so no double booking appears; a non-boolean ccode
      that passed the lookup is new. */
  lemma {:induction false} InsertGuardKeepsInvariants(c: Catalog, m: Payload)
    requires c.Valid() && c.Referential() && InsertMeetingGuard(c, m).Go?
    ensures var after := c.meetings[c.nextMid := InsertMeetingGuard(c, m).value];
      && c.(meetings := after, nextMid := c.nextMid + 1).Referential()
      && (SectionDao.NoDoubleBooking(c.sections, c.meetings) ==> SectionDao.NoDoubleBooking(c.sections, after))
      && (UniqueCcodes(c.meetings) && !m["ccode"].JBool? ==> UniqueCcodes(after))
  {
    if !m["ccode"].JBool? {
      LookupKeyIsStored(m["ccode"]);
    }
    FreshMeetingKeepsInvariants(c, InsertMeetingGuard(c, m).value);
  }

  /** A row stored under the next serial id keeps the foreign keys and, as
      no section can use that id yet, the booking invariant; it keeps ccodes
      unique when no meeting holds its ccode. */
  lemma {:induction false} FreshMeetingKeepsInvariants(c: Catalog, row: MeetingRow)
    requires c.Valid() && c.Referential()
    ensures var after := c.meetings[c.nextMid := row];
      && c.(meetings := after, nextMid := c.nextMid + 1).Referential()
      && (SectionDao.NoDoubleBooking(c.sections, c.meetings) ==> SectionDao.NoDoubleBooking(c.sections, after))
      && (UniqueCcodes(c.meetings) && MeetingDao.MeetingByCcode(c.meetings, row.ccode).None? ==> UniqueCcodes(after))
  {
    var after := c.meetings[c.nextMid := row];
    assert !MeetingDao.Referenced(c.sections, c.nextMid);
    if SectionDao.NoDoubleBooking(c.sections, c.meetings) {
      forall s1, s2 | s1 in c.sections && s2 in c.sections && s1 != s2
        ensures !SectionDao.Clash(after, c.sections[s1], c.sections[s2])
      {
        assert !SectionDao.Clash(c.meetings, c.sections[s1], c.sections[s2]);
      }
    }
  }

  /** Overwriting a meeting keeps the foreign keys, and keeps ccodes unique
      when a non-boolean ccode passed the lookup. */
  lemma {:induction false} UpdateGuardKeepsInvariants(c: Catalog, mid: int, m: Payload)
    requires UpdateMeetingGuard(c, mid, m).Go?
    ensures var after := c.meetings[mid := UpdateMeetingGuard(c, mid, m).value];
      && (c.Referential() ==> c.(meetings := after).Referential())
      && (UniqueCcodes(c.meetings) && !m["ccode"].JBool? ==> UniqueCcodes(after))
  {
    var row := UpdateMeetingGuard(c, mid, m).value;
    var after := c.meetings[mid := row];
    if UniqueCcodes(c.meetings) && !m["ccode"].JBool? {
      LookupKeyIsStored(m["ccode"]);
      var e := MeetingDao.MeetingByCcode(c.meetings, row.ccode);
      forall a | a in c.meetings && a != mid ensures c.meetings[a].ccode != row.ccode {
        if e.Some? {
          assert e.value == mid;
          assert c.meetings[mid].ccode == row.ccode;
        }
      }
    }
  }

  /** `updateMeeting` does not re-run the section conflict check: moving a
      meeting can double-book two sections in one room that were apart. */
  lemma MeetingUpdateCanDoubleBook()
    ensures var sections := map[1 := SectionRow(1, 1, 1, "Fall", "2025", 10),
                                2 := SectionRow(1, 1, 2, "Fall", "2025", 10)];
            var meetings := map[1 := MeetingRow("A", 450, 525, "MJ"), 2 := MeetingRow("B", 540, 615, "MJ")];
      && SectionDao.NoDoubleBooking(sections, meetings)
      && !SectionDao.NoDoubleBooking(sections, meetings[2 := MeetingRow("B", 500, 600, "MJ")])
  {
    var sections := map[1 := SectionRow(1, 1, 1, "Fall", "2025", 10),
                         2 := SectionRow(1, 1, 2, "Fall", "2025", 10)];
    var moved := map[1 := MeetingRow("A", 450, 525, "MJ"), 2 := MeetingRow("B", 500, 600, "MJ")];
    assert SectionDao.Clash(moved, sections[1], sections[2]);
  }

  /** `insertMeeting(meeting)`: the guard chain, then one new row answered
      201 with the meeting as sent. */
  method InsertMeeting(db: Database, m: Payload) returns (resp: Response)
    requires db.Valid()
    modifies db
    ensures db.Valid()
    ensures var g := InsertMeetingGuard(old(db.Snapshot()), m);
      if g.Stop? then resp == g.response && db.Snapshot() == old(db.Snapshot())
      else
        && db.Snapshot() == old(db.Snapshot()).(meetings := old(db.meetings)[old(db.nextMid) := g.value],
                                                nextMid := old(db.nextMid) + 1)
        && resp == Response(201, MeetingJson(old(db.nextMid), m["ccode"], g.value))
    ensures old(db.Snapshot().Referential()) ==> db.Snapshot().Referential()
    ensures old(db.Snapshot().Referential() && SectionDao.NoDoubleBooking(db.sections, db.meetings)) ==>
      SectionDao.NoDoubleBooking(db.sections, db.meetings)
    ensures old(db.Snapshot().Referential() && UniqueCcodes(db.meetings)) && "ccode" in m && !m["ccode"].JBool? ==>
      UniqueCcodes(db.meetings)
  {
    var g := InsertMeetingGuard(db.Snapshot(), m);
    if g.Go? && !m["ccode"].JBool? {
      LookupKeyIsStored(m["ccode"]);
    }
    resp := CreateMeeting(db, g, m);
  }

  /** The end of `insertMeeting(meeting)`: a refusal is answered as it is;
      otherwise the row is inserted and answered 201. */
  method CreateMeeting(db: Database, g: Guard<MeetingRow>, m: Payload) returns (resp: Response)
    requires db.Valid()
    requires g.Go? ==> HasMeetingFields(m) && 0 <= g.value.starttime < 24 * 60 && 0 <= g.value.endtime < 24 * 60
    requires g.Go? && !m["ccode"].JBool? ==> MeetingDao.MeetingByCcode(db.meetings, g.value.ccode).None?
    modifies db
    ensures db.Valid()
    ensures g.Stop? ==> resp == g.response && db.Snapshot() == old(db.Snapshot())
    ensures g.Go? ==>
      && db.Snapshot() == old(db.Snapshot()).(meetings := old(db.meetings)[old(db.nextMid) := g.value],
                                              nextMid := old(db.nextMid) + 1)
      && resp == Response(201, MeetingJson(old(db.nextMid), m["ccode"], g.value))
    ensures old(db.Snapshot().Referential()) ==> db.Snapshot().Referential()
    ensures old(db.Snapshot().Referential() && SectionDao.NoDoubleBooking(db.sections, db.meetings)) ==>
      SectionDao.NoDoubleBooking(db.sections, db.meetings)
    ensures old(db.Snapshot().Referential() && UniqueCcodes(db.meetings)) && g.Go? && !m["ccode"].JBool? ==>
      UniqueCcodes(db.meetings)
  {
    if g.Stop? {
      return g.response;
    }
    if db.Snapshot().Referential() {
      FreshMeetingKeepsInvariants(db.Snapshot(), g.value);
    }
    var mid := MeetingDao.InsertMeeting(db, g.value);
    resp := Response(201, MeetingJson(mid, m["ccode"], g.value));
  }

  /** `updateMeeting(mid, meeting)`: the guard chain, then row `mid`
      overwritten and answered 200. */
  method UpdateMeeting(db: Database, mid: nat, m: Payload) returns (resp: Response)
    requires db.Valid()
    modifies db
    ensures db.Valid()
    ensures var g := UpdateMeetingGuard(old(db.Snapshot()), mid, m);
      if g.Stop? then resp == g.response && db.Snapshot() == old(db.Snapshot())
      else
        && db.Snapshot() == old(db.Snapshot()).(meetings := old(db.meetings)[mid := g.value])
        && resp == Response(200, MeetingJson(mid, m["ccode"], g.value))
    ensures old(db.Snapshot().Referential()) ==> db.Snapshot().Referential()
    ensures old(UniqueCcodes(db.meetings)) && "ccode" in m && !m["ccode"].JBool? ==> UniqueCcodes(db.meetings)
  {
    var g := UpdateMeetingGuard(db.Snapshot(), mid, m);
    if g.Stop? {
      return g.response;
    }
    UpdateGuardKeepsInvariants(db.Snapshot(), mid, m);
    var updated := MeetingDao.UpdateMeeting(db, mid, g.value);
    resp := Response(200, MeetingJson(mid, m["ccode"], g.value));
  }

  /** `deleteMeeting(mid)`: the DAO's -1 and -2 become 404 and 409, a
      deleted id is echoed with 204. */
  method DeleteMeeting(db: Database, mid: nat) returns (resp: Response)
    requires db.Valid()
    modifies db
    ensures db.Valid()
    ensures MeetingDao.Referenced(old(db.sections), mid) ==>
      resp == Msg(409, "CONFLICT: MEETING IS REFERENCED BY A SECTION") && db.Snapshot() == old(db.Snapshot())
    ensures !MeetingDao.Referenced(old(db.sections), mid) && mid !in old(db.meetings) ==>
      resp == Msg(404, "NOT FOUND") && db.Snapshot() == old(db.Snapshot())
    ensures !MeetingDao.Referenced(old(db.sections), mid) && mid in old(db.meetings) ==>
      resp == Response(204, JInt(mid)) && db.Snapshot() == old(db.Snapshot()).(meetings := old(db.meetings) - {mid})
    ensures old(db.Snapshot().Referential()) ==> db.Snapshot().Referential()
    ensures old(SectionDao.NoDoubleBooking(db.sections, db.meetings)) ==> SectionDao.NoDoubleBooking(db.sections, db.meetings)
    ensures old(UniqueCcodes(db.meetings)) ==> UniqueCcodes(db.meetings)
  {
    ghost var before := db.meetings;
    var deleted := MeetingDao.DeleteMeeting(db, mid);
    assert db.meetings == before || db.meetings == before - {mid};
    if deleted == -1 {
      return Msg(404, "NOT FOUND");
    } else if deleted == -2 {
      return Msg(409, "CONFLICT: MEETING IS REFERENCED BY A SECTION");
    }
    resp := Response(204, JInt(deleted));
  }
}
