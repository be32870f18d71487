/** The section endpoints: the validation chain in front of INSERT and
    UPDATE, and the status mapping of DELETE. */
module SectionHandler {
  import opened Common
  import opened PyText
  import opened Json
  import opened Http
  import opened Sql
  import opened Store
  import SectionDao

  /** The six fields both write endpoints require. */
  predicate HasSectionFields(s: Payload) {
    "roomid" in s && "cid" in s && "mid" in s && "semester" in s && "years" in s && "capacity" in s
  }

  const ValidSemesters: set<string> := {"Fall", "Spring", "V1", "V2"}

  /** `mapSection(row)` */
  function SectionJson(sid: int, row: SectionRow): (r: Json)
    ensures r.JObj? && r.fields.Keys == {"sid", "roomid", "cid", "mid", "semester", "years", "capacity"}
    ensures r.fields["sid"] == JInt(sid)
  {
    JObj(map["sid" := JInt(sid), "roomid" := JInt(row.roomid), "cid" := JInt(row.cid),
             "mid" := JInt(row.mid), "semester" := JStr(row.semester), "years" := JStr(row.years),
             "capacity" := JInt(row.capacity)])
  }

  /** `years` passes when it is a str of four digits. */
  predicate YearsOk(j: Json) {
    j.JStr? && |j.s| == 4 && IsDigits(j.s)
  }

  /** The checks both `insertSection` and `updateSection` run once the six
      fields are known to be present: the foreign keys in the order cid,
      mid, roomid; the capacity against the room; the term; the schedule. */
  function SectionChecks(c: Catalog, s: Payload, exclude: Option<int>): (r: Guard<SectionRow>)
    requires HasSectionFields(s)
    ensures r.Go? ==>
      && r.value.cid in c.classes && r.value.mid in c.meetings && r.value.roomid in c.rooms
      && 0 <= r.value.capacity <= c.rooms[r.value.roomid].capacity
      && r.value.semester in ValidSemesters
      && |r.value.years| == 4 && IsDigits(r.value.years)
      && SectionDao.HasScheduleConflict(c.sections, c.meetings, r.value.roomid, r.value.mid, exclude).None?
    ensures r.Go? ==>
      && IntParam(s["cid"]) == Value(r.value.cid) && IntParam(s["mid"]) == Value(r.value.mid)
      && IntParam(s["roomid"]) == Value(r.value.roomid)
      && s["capacity"] == JInt(r.value.capacity)
      && s["semester"] == JStr(r.value.semester) && s["years"] == JStr(r.value.years)
  {
    match IdFetch(c.classes, s["cid"])
    case DbError => Stop(Uncaught(DbException))
    case NoRow => Stop(Msg(404, "cid does not exist"))
    case Row(cid) =>
      match IdFetch(c.meetings, s["mid"])
      case DbError => Stop(Uncaught(DbException))
      case NoRow => Stop(Msg(404, "mid does not exist"))
      case Row(mid) =>
        match IdFetch(c.rooms, s["roomid"])
        case DbError => Stop(Uncaught(DbException))
        case NoRow => Stop(Msg(404, "roomid does not exist"))
        case Row(roomid) =>
          match PyInt(s["capacity"])
          case None => Stop(Uncaught(TypeException))
          case Some(cap) =>
            if cap < 0 || cap > c.rooms[roomid].capacity then
              Stop(Msg(400, "Section capacity is invalid or exceeds room capacity"))
            else if !Hashable(s["semester"]) then Stop(Uncaught(TypeException))
            else if !(s["semester"].JStr? && s["semester"].s in ValidSemesters) then
              Stop(Msg(400, "Invalid semester"))
            else if !YearsOk(s["years"]) then
              Stop(Msg(400, "Invalid year format (YYYY expected)"))
            else
              match SectionDao.HasScheduleConflict(c.sections, c.meetings, roomid, mid, exclude)
              case Some(k) => Stop(Msg(409, "Scheduling conflict with section " + IntToString(k)))
              case None =>
                match IntColumn(s["capacity"])
                case None => Stop(Uncaught(DbException))
                case Some(written) =>
                  Go(SectionRow(roomid, cid, mid, s["semester"].s, s["years"].s, written))
  }

  /** The guard chain of `insertSection`. */
  function InsertSectionGuard(c: Catalog, s: Payload): (r: Guard<SectionRow>)
    ensures !HasSectionFields(s) ==> r == Stop(Msg(400, "BAD REQUEST: MISSING VALUES"))
    ensures HasSectionFields(s) ==> r == SectionChecks(c, s, None)
  {
    if !HasSectionFields(s) then Stop(Msg(400, "BAD REQUEST: MISSING VALUES"))
    else SectionChecks(c, s, None)
  }

  /** The guard chain of `updateSection`: fields first, then the section
      itself, then the shared checks with the section excluded from the
      conflict query. */
  function UpdateSectionGuard(c: Catalog, sid: nat, s: Payload): (r: Guard<SectionRow>)
    ensures !HasSectionFields(s) ==> r == Stop(Msg(400, "BAD REQUEST"))
    ensures HasSectionFields(s) && sid !in c.sections ==> r == Stop(Msg(404, "Section not found"))
    ensures r.Go? ==> sid in c.sections && r == SectionChecks(c, s, Some(sid))
  {
    if !HasSectionFields(s) then Stop(Msg(400, "BAD REQUEST"))
    else if sid !in c.sections then Stop(Msg(404, "Section not found"))
    else SectionChecks(c, s, Some(sid))
  }

  /** The foreign keys are checked in the order cid, mid, roomid, and the
      first one without a row answers 404. */
  lemma ForeignKeyOrder(c: Catalog, s: Payload, exclude: Option<int>)
    requires HasSectionFields(s)
    ensures IdFetch(c.classes, s["cid"]).NoRow? ==>
      SectionChecks(c, s, exclude) == Stop(Msg(404, "cid does not exist"))
    ensures IdFetch(c.classes, s["cid"]).Row? && IdFetch(c.meetings, s["mid"]).NoRow? ==>
      SectionChecks(c, s, exclude) == Stop(Msg(404, "mid does not exist"))
    ensures IdFetch(c.classes, s["cid"]).Row? && IdFetch(c.meetings, s["mid"]).Row?
            && IdFetch(c.rooms, s["roomid"]).NoRow? ==>
      SectionChecks(c, s, exclude) == Stop(Msg(404, "roomid does not exist"))
  {
  }

  /** A capacity outside 0..room capacity answers 400 once the keys exist. */
  lemma CapacityOutOfRange(c: Catalog, s: Payload, exclude: Option<int>, roomid: int, cap: int)
    requires HasSectionFields(s)
    requires IdFetch(c.classes, s["cid"]).Row? && IdFetch(c.meetings, s["mid"]).Row?
    requires IdFetch(c.rooms, s["roomid"]) == Row(roomid)
    requires PyInt(s["capacity"]) == Some(cap)
    requires cap < 0 || cap > c.rooms[roomid].capacity
    ensures SectionChecks(c, s, exclude) == Stop(Msg(400, "Section capacity is invalid or exceeds room capacity"))
  {
  }

  /** A booking that clashes answers 409 naming the clashing section. */
  lemma ConflictAnswers409(c: Catalog, s: Payload, exclude: Option<int>, roomid: int, mid: int, k: int)
    requires HasSectionFields(s)
    requires IdFetch(c.classes, s["cid"]).Row? && IdFetch(c.meetings, s["mid"]) == Row(mid)
    requires IdFetch(c.rooms, s["roomid"]) == Row(roomid)
    requires PyInt(s["capacity"]).Some? && 0 <= PyInt(s["capacity"]).value <= c.rooms[roomid].capacity
    requires s["semester"].JStr? && s["semester"].s in ValidSemesters && YearsOk(s["years"])
    requires SectionDao.HasScheduleConflict(c.sections, c.meetings, roomid, mid, exclude) == Some(k)
    ensures SectionChecks(c, s, exclude) == Stop(Msg(409, "Scheduling conflict with section " + IntToString(k)))
  {
    assert Hashable(s["semester"]);
  }

  /** Re-saving a section with its own room and meeting never reports a
      conflict with itself: in a table without double bookings it reports
      none at all. */
  lemma {:induction false} ResaveNoSelfConflict(c: Catalog, sid: nat, s: Payload)
    requires SectionDao.NoDoubleBooking(c.sections, c.meetings)
    requires sid in c.sections && HasSectionFields(s)
    requires IntParam(s["roomid"]) == Value(c.sections[sid].roomid)
    requires IntParam(s["mid"]) == Value(c.sections[sid].mid)
    ensures UpdateSectionGuard(c, sid, s).Stop? ==> UpdateSectionGuard(c, sid, s).response.Code() != 409
  {
    SectionDao.ResaveConflictsOnlyWithOthers(c.sections, c.meetings, sid);
  }

  /** A section the insert guard accepts keeps the table free of double
      bookings and its foreign keys valid. */
  lemma {:induction false} InsertGuardKeepsInvariants(c: Catalog, s: Payload)
    requires c.Valid() && InsertSectionGuard(c, s).Go?
    ensures var after := c.sections[c.nextSid := InsertSectionGuard(c, s).value];
      && (SectionDao.NoDoubleBooking(c.sections, c.meetings) ==> SectionDao.NoDoubleBooking(after, c.meetings))
      && (c.Referential() ==> c.(sections := after).Referential())
  {
    var row := InsertSectionGuard(c, s).value;
    assert c.nextSid !in c.sections;
    if SectionDao.NoDoubleBooking(c.sections, c.meetings) {
      SectionDao.InsertKeepsNoDoubleBooking(c.sections, c.meetings, c.nextSid, row);
    }
  }

  /** A section the update guard accepts keeps the table free of double
      bookings and its foreign keys valid. */
  lemma {:induction false} UpdateGuardKeepsInvariants(c: Catalog, sid: nat, s: Payload)
    requires UpdateSectionGuard(c, sid, s).Go?
    ensures var after := c.sections[sid := UpdateSectionGuard(c, sid, s).value];
      && (SectionDao.NoDoubleBooking(c.sections, c.meetings) ==> SectionDao.NoDoubleBooking(after, c.meetings))
      && (c.Referential() ==> c.(sections := after).Referential())
  {
    var row := UpdateSectionGuard(c, sid, s).value;
    if SectionDao.NoDoubleBooking(c.sections, c.meetings) {
      SectionDao.UpdateKeepsNoDoubleBooking(c.sections, c.meetings, sid, row);
    }
  }

  /** `insertSection(s)`: the guard chain, then one new row answered 201. */
  method InsertSection(db: Database, s: Payload) returns (resp: Response)
    requires db.Valid()
    modifies db
    ensures db.Valid()
    ensures var g := InsertSectionGuard(old(db.Snapshot()), s);
      if g.Stop? then resp == g.response && db.Snapshot() == old(db.Snapshot())
      else
        && db.Snapshot() == old(db.Snapshot()).(sections := old(db.sections)[old(db.nextSid) := g.value],
                                                nextSid := old(db.nextSid) + 1)
        && resp == Response(201, SectionJson(old(db.nextSid), g.value))
    ensures old(SectionDao.NoDoubleBooking(db.sections, db.meetings)) ==> SectionDao.NoDoubleBooking(db.sections, db.meetings)
    ensures old(db.Snapshot().Referential()) ==> db.Snapshot().Referential()
  {
    var g := InsertSectionGuard(db.Snapshot(), s);
    if g.Stop? {
      return g.response;
    }
    InsertGuardKeepsInvariants(db.Snapshot(), s);
    var sid := SectionDao.InsertSection(db, g.value);
    resp := Response(201, SectionJson(sid, g.value));
  }

  /** `updateSection(sid, s)`: the guard chain, then row `sid` overwritten
      and answered 200. */
  method UpdateSection(db: Database, sid: nat, s: Payload) returns (resp: Response)
    requires db.Valid()
    modifies db
    ensures db.Valid()
    ensures var g := UpdateSectionGuard(old(db.Snapshot()), sid, s);
      if g.Stop? then resp == g.response && db.Snapshot() == old(db.Snapshot())
      else
        && db.Snapshot() == old(db.Snapshot()).(sections := old(db.sections)[sid := g.value])
        && resp == Response(200, SectionJson(sid, g.value))
    ensures old(SectionDao.NoDoubleBooking(db.sections, db.meetings)) ==> SectionDao.NoDoubleBooking(db.sections, db.meetings)
    ensures old(db.Snapshot().Referential()) ==> db.Snapshot().Referential()
  {
    var g := UpdateSectionGuard(db.Snapshot(), sid, s);
    if g.Stop? {
      return g.response;
    }
    UpdateGuardKeepsInvariants(db.Snapshot(), sid, s);
    var updated := SectionDao.UpdateSection(db, sid, g.value);
    resp := Response(200, SectionJson(sid, g.value));
  }

  /** `deleteSection(sid)`: 404 for an absent section, otherwise the row is
      removed and the answer is 204. */
  method DeleteSection(db: Database, sid: nat) returns (resp: Response)
    requires db.Valid()
    modifies db
    ensures db.Valid()
    ensures sid !in old(db.sections) ==> resp == Msg(404, "Section not found") && db.Snapshot() == old(db.Snapshot())
    ensures sid in old(db.sections) ==>
      && resp == Msg(204, "Section " + IntToString(sid) + " deleted successfully")
      && db.Snapshot() == old(db.Snapshot()).(sections := old(db.sections) - {sid})
    ensures old(SectionDao.NoDoubleBooking(db.sections, db.meetings)) ==> SectionDao.NoDoubleBooking(db.sections, db.meetings)
    ensures old(db.Snapshot().Referential()) ==> db.Snapshot().Referential()
  {
    var deleted := SectionDao.DeleteSection(db, sid);
    if deleted == -1 {
      return Msg(404, "Section not found");
    }
    resp := Msg(204, "Section " + IntToString(deleted) + " deleted successfully");
  }
}
