/** The room endpoints: payload validation, the uniqueness checks in front
    of INSERT and UPDATE, and the status mapping of DELETE. */
module RoomHandler {
  import opened Common
  import opened PyText
  import opened Json
  import opened Http
  import opened Sql
  import opened Store
  import RoomDao

  /** The fields `validate_room_payload` requires, in the order it checks them. */
  const RoomFields: seq<string> := ["building", "room_number", "capacity"]

  const CapacityMessage: string := "BAD REQUEST: Capacity must be a non-negative integer"

  lemma HasRoomFields(p: Payload)
    requires FirstMissing(p, RoomFields).None?
    ensures "building" in p && "room_number" in p && "capacity" in p
  {
    assert HasAll(p, RoomFields);
    assert RoomFields[0] in p && RoomFields[1] in p && RoomFields[2] in p;
  }

  /** `validate_room_payload(payload)` once the three fields are known to
      be present: the capacity, then the two names. */
  function RoomValues(p: Payload): (r: Guard<RoomRow>)
    requires "building" in p && "room_number" in p && "capacity" in p
    ensures r.Go? <==>
      && NonBlankStr(p["building"]) && NonBlankStr(p["room_number"])
      && PyIntCall(p["capacity"]).Some? && PyIntCall(p["capacity"]).value >= 0
    ensures r.Go? ==>
      && r.value.building == Strip(p["building"].s) && r.value.roomNumber == Strip(p["room_number"].s)
      && PyIntCall(p["capacity"]) == Some(r.value.capacity)
      && r.value.building != "" && r.value.roomNumber != ""
  {
    match PyIntCall(p["capacity"])
    case None => Stop(ErrorObj(400, CapacityMessage))
    case Some(n) =>
      if n < 0 then Stop(ErrorObj(400, CapacityMessage))
      else if !NonBlankStr(p["building"]) then Stop(ErrorObj(400, "BAD REQUEST: Building must be a non-empty string"))
      else if !NonBlankStr(p["room_number"]) then Stop(ErrorObj(400, "BAD REQUEST: Room number must be a non-empty string"))
      else Go(RoomRow(Strip(p["building"].s), Strip(p["room_number"].s), n))
  }

  /** `validate_room_payload(payload)`: the first missing field, then the
      field values. */
  function RoomPayloadCheck(p: Payload): (r: Guard<RoomRow>)
    ensures FirstMissing(p, RoomFields).Some? ==>
      r == Stop(ErrorObj(400, "BAD REQUEST: Missing field " + FirstMissing(p, RoomFields).value))
    ensures r.Go? ==> "building" in p && "room_number" in p && "capacity" in p && r == RoomValues(p)
  {
    match FirstMissing(p, RoomFields)
    case Some(field) => Stop(ErrorObj(400, "BAD REQUEST: Missing field " + field))
    case None =>
      HasRoomFields(p);
      RoomValues(p)
  }

  /** A payload that lacks a required field is answered 400 naming the
      first one missing, before anything else is looked at. */
  lemma MissingFieldFirst(p: Payload)
    requires !("building" in p && "room_number" in p && "capacity" in p)
    ensures RoomPayloadCheck(p).Stop?
    ensures var f := FirstMissing(p, RoomFields);
      && f.Some? && f.value !in p
      && RoomPayloadCheck(p) == Stop(ErrorObj(400, "BAD REQUEST: Missing field " + f.value))
  {
    if "building" !in p {
      assert RoomFields[0] !in p;
    } else if "room_number" !in p {
      assert RoomFields[1] !in p;
    } else {
      assert RoomFields[2] !in p;
    }
  }

  /** With all three fields present, the check is the value check. */
  lemma RoomPayloadOfComplete(p: Payload)
    requires "building" in p && "room_number" in p && "capacity" in p
    ensures RoomPayloadCheck(p) == RoomValues(p)
  {
    assert HasAll(p, RoomFields);
  }

  /** The payload a client sends to store `row` as it is. */
  function RoomPayload(row: RoomRow): Payload {
    map["building" := JStr(row.building), "room_number" := JStr(row.roomNumber), "capacity" := JInt(row.capacity)]
  }

  /** A name whose ends are not white space. */
  predicate Trimmed(s: string) {
    s != [] && !IsSpace(s[0]) && !IsSpace(s[|s| - 1])
  }

  lemma RowValues(row: RoomRow)
    requires Trimmed(row.building) && Trimmed(row.roomNumber) && row.capacity >= 0
    ensures var q := RoomPayload(row);
      "building" in q && "room_number" in q && "capacity" in q && RoomValues(q) == Go(row)
  {
    var q := RoomPayload(row);
    assert q["building"] == JStr(row.building) && q["room_number"] == JStr(row.roomNumber);
    assert q["capacity"] == JInt(row.capacity);
    StripOfNonSpace(row.building);
    StripOfNonSpace(row.roomNumber);
  }

  lemma RowRevalidates(row: RoomRow)
    requires Trimmed(row.building) && Trimmed(row.roomNumber) && row.capacity >= 0
    ensures RoomPayloadCheck(RoomPayload(row)) == Go(row)
  {
    RowValues(row);
    RoomPayloadOfComplete(RoomPayload(row));
  }

  /** A stored room, sent back as a payload, validates to itself: the names
      are already stripped. */
  lemma {:induction false} StoredRoomRevalidates(p: Payload)
    requires RoomPayloadCheck(p).Go?
    ensures RoomPayloadCheck(RoomPayload(RoomPayloadCheck(p).value)) == RoomPayloadCheck(p)
  {
    var row := RoomPayloadCheck(p).value;
    RowRevalidates(row);
  }

  /** `validate_room_payload(payload)`, run as the source runs it: a loop over
      the required fields, then the conversions. */
  method ValidateRoomPayload(p: Payload) returns (g: Guard<RoomRow>)
    ensures g == RoomPayloadCheck(p)
  {
    var i := 0;
    while i < |RoomFields|
      invariant 0 <= i <= |RoomFields|
      invariant HasAll(p, RoomFields[..i])
    {
      if RoomFields[i] !in p {
        FirstMissingSkip(p, RoomFields, i);
        return Stop(ErrorObj(400, "BAD REQUEST: Missing field " + RoomFields[i]));
      }
      i := i + 1;
    }
    assert RoomFields[..i] == RoomFields;
    HasRoomFields(p);
    var capacity := PyIntCall(p["capacity"]);
    if capacity.None? || capacity.value < 0 {
      return Stop(ErrorObj(400, CapacityMessage));
    }
    if !NonBlankStr(p["building"]) {
      return Stop(ErrorObj(400, "BAD REQUEST: Building must be a non-empty string"));
    }
    if !NonBlankStr(p["room_number"]) {
      return Stop(ErrorObj(400, "BAD REQUEST: Room number must be a non-empty string"));
    }
    g := Go(RoomRow(Strip(p["building"].s), Strip(p["room_number"].s), capacity.value));
  }

  function ExistsMessage(row: RoomRow): string {
    "BAD REQUEST: Room " + row.building + " " + row.roomNumber + " already exists."
  }

  /** `insertRoom(payload)` up to the INSERT: validation, then the
      building+number lookup; a capacity beyond the integer column makes
      the INSERT raise. */
  function InsertRoomGuard(c: Catalog, p: Payload): (r: Guard<RoomRow>)
    ensures RoomPayloadCheck(p).Stop? ==> r == RoomPayloadCheck(p)
    ensures RoomPayloadCheck(p).Go? && RoomDao.RoomByBuildingNumber(c.rooms, RoomPayloadCheck(p).value.building,
                                                                  RoomPayloadCheck(p).value.roomNumber).Some? ==>
      r == Stop(ErrorObj(409, ExistsMessage(RoomPayloadCheck(p).value)))
    ensures r.Go? ==>
      && r == RoomPayloadCheck(p) && Int4Min <= r.value.capacity <= Int4Max
      && RoomDao.RoomByBuildingNumber(c.rooms, r.value.building, r.value.roomNumber).None?
  {
    match RoomPayloadCheck(p)
    case Stop(err) => Stop(err)
    case Go(row) =>
      if RoomDao.RoomByBuildingNumber(c.rooms, row.building, row.roomNumber).Some? then
        Stop(ErrorObj(409, ExistsMessage(row)))
      else if IntColumn(JInt(row.capacity)).None? then Stop(Uncaught(DbException))
      else Go(row)
  }

  /** `updateRoom(rid, payload)` up to the UPDATE: the room must exist
      before the payload is validated; only a different room holding the
      same building and number is a clash. */
  function UpdateRoomGuard(c: Catalog, rid: int, p: Payload): (r: Guard<RoomRow>)
    ensures rid !in c.rooms ==> r == Stop(ErrorObj(404, "NOT FOUND"))
    ensures rid in c.rooms && RoomPayloadCheck(p).Stop? ==> r == RoomPayloadCheck(p)
    ensures r.Go? ==> rid in c.rooms && r == RoomPayloadCheck(p) && Int4Min <= r.value.capacity <= Int4Max
    ensures r.Go? ==>
      var e := RoomDao.RoomByBuildingNumber(c.rooms, r.value.building, r.value.roomNumber);
      e.None? || e.value == rid
  {
    if rid !in c.rooms then Stop(ErrorObj(404, "NOT FOUND"))
    else match RoomPayloadCheck(p)
      case Stop(err) => Stop(err)
      case Go(row) =>
        var existing := RoomDao.RoomByBuildingNumber(c.rooms, row.building, row.roomNumber);
        if existing.Some? && existing.value != rid then Stop(ErrorObj(409, ExistsMessage(row)))
        else if IntColumn(JInt(row.capacity)).None? then Stop(Uncaught(DbException))
        else Go(row)
  }

  /** Re-saving a room under its own building and number is no clash. */
  lemma {:induction false} ResaveIsNoClash(c: Catalog, rid: int, p: Payload)
    requires rid in c.rooms && RoomDao.UniquePlaces(c.rooms)
    requires RoomPayloadCheck(p).Go?
    requires RoomPayloadCheck(p).value.building == c.rooms[rid].building
    requires RoomPayloadCheck(p).value.roomNumber == c.rooms[rid].roomNumber
    ensures UpdateRoomGuard(c, rid, p).Stop? ==> UpdateRoomGuard(c, rid, p).response.Code() != 409
  {
    RoomDao.LookupOfUnique(c.rooms, rid);
  }

  /** Both writes keep building+number pairs unique. */
  lemma {:induction false} WritesKeepUnique(c: Catalog, rid: int, p: Payload)
    requires c.Valid() && RoomDao.UniquePlaces(c.rooms)
    ensures InsertRoomGuard(c, p).Go? ==> RoomDao.UniquePlaces(c.rooms[c.nextRid := InsertRoomGuard(c, p).value])
    ensures UpdateRoomGuard(c, rid, p).Go? ==> RoomDao.UniquePlaces(c.rooms[rid := UpdateRoomGuard(c, rid, p).value])
  {
    if InsertRoomGuard(c, p).Go? {
      RoomDao.PlaceWriteKeepsUnique(c.rooms, c.nextRid, InsertRoomGuard(c, p).value);
    }
    if UpdateRoomGuard(c, rid, p).Go? {
      RoomDao.PlaceWriteKeepsUnique(c.rooms, rid, UpdateRoomGuard(c, rid, p).value);
    }
  }

  /** Every section fits its room. */
  predicate SectionsFit(c: Catalog) {
    forall s :: s in c.sections && c.sections[s].roomid in c.rooms ==>
      c.sections[s].capacity <= c.rooms[c.sections[s].roomid].capacity
  }

  /** `updateRoom` does not look at the sections held in the room: shrinking
      a room can leave a section larger than its room. */
  lemma RoomUpdateCanOverfill()
    ensures var c := Catalog(map[], map[], map[1 := RoomRow("S", "101", 40)],
                             map[1 := SectionRow(1, 1, 1, "Fall", "2025", 30)], map[], map[], 1, 1, 2, 2, 1);
      && SectionsFit(c)
      && !SectionsFit(c.(rooms := c.rooms[1 := RoomRow("S", "101", 20)]))
  {
    var c := Catalog(map[], map[], map[1 := RoomRow("S", "101", 40)],
                     map[1 := SectionRow(1, 1, 1, "Fall", "2025", 30)], map[], map[], 1, 1, 2, 2, 1);
    var after := c.(rooms := c.rooms[1 := RoomRow("S", "101", 20)]);
    assert after.sections[1].roomid in after.rooms;
  }

  /** `mapRoom(row)` */
  function RoomJson(rid: int, row: RoomRow): (r: Json)
    ensures r.JObj? && r.fields.Keys == {"rid", "building", "room_number", "capacity"}
    ensures r.fields["rid"] == JInt(rid)
  {
    JObj(map["rid" := JInt(rid), "building" := JStr(row.building), "room_number" := JStr(row.roomNumber),
             "capacity" := JInt(row.capacity)])
  }

  /** A room reply sent back as the body of an update validates to the
      room it shows. */
  lemma {:induction false} RoomReplyRevalidates(rid: int, row: RoomRow)
    requires Trimmed(row.building) && Trimmed(row.roomNumber) && row.capacity >= 0
    ensures RoomPayloadCheck(RoomJson(rid, row).fields) == Go(row)
  {
    var p := RoomJson(rid, row).fields;
    assert p == RoomPayload(row)["rid" := JInt(rid)];
    RowRevalidates(row);
    assert p["building"] == RoomPayload(row)["building"] && p["room_number"] == RoomPayload(row)["room_number"];
    assert p["capacity"] == RoomPayload(row)["capacity"];
    RoomPayloadOfComplete(p);
    RoomPayloadOfComplete(RoomPayload(row));
  }

  /** `insertRoom(payload)`: validation, the lookup, then one new row read
      back and answered 201. */
  method InsertRoom(db: Database, p: Payload) returns (resp: Response)
    requires db.Valid()
    modifies db
    ensures db.Valid()
    ensures var g := InsertRoomGuard(old(db.Snapshot()), p);
      if g.Stop? then resp == g.response && db.Snapshot() == old(db.Snapshot())
      else
        && db.Snapshot() == old(db.Snapshot()).(rooms := old(db.rooms)[old(db.nextRid) := g.value],
                                                nextRid := old(db.nextRid) + 1)
        && resp == Response(201, RoomJson(old(db.nextRid), g.value))
    ensures old(db.Snapshot().Referential()) ==> db.Snapshot().Referential()
    ensures old(RoomDao.UniquePlaces(db.rooms)) ==> RoomDao.UniquePlaces(db.rooms)
  {
    var g := ValidateRoomPayload(p);
    if g.Stop? {
      return g.response;
    }
    var row := g.value;
    if RoomDao.RoomByBuildingNumber(db.rooms, row.building, row.roomNumber).Some? {
      return ErrorObj(409, ExistsMessage(row));
    }
    if IntColumn(JInt(row.capacity)).None? {
      return Uncaught(DbException);
    }
    assert InsertRoomGuard(db.Snapshot(), p) == Go(row);
    if RoomDao.UniquePlaces(db.rooms) {
      RoomDao.PlaceWriteKeepsUnique(db.rooms, db.nextRid, row);
    }
    var rid := RoomDao.InsertRoom(db, row);
    assert db.rooms[rid] == row;
    resp := Response(201, RoomJson(rid, row));
  }

  /** `updateRoom(rid, payload)`: existence, validation, the lookup, then
      row `rid` overwritten, read back and answered 200. */
  method UpdateRoom(db: Database, rid: nat, p: Payload) returns (resp: Response)
    requires db.Valid()
    modifies db
    ensures db.Valid()
    ensures var g := UpdateRoomGuard(old(db.Snapshot()), rid, p);
      if g.Stop? then resp == g.response && db.Snapshot() == old(db.Snapshot())
      else
        && db.Snapshot() == old(db.Snapshot()).(rooms := old(db.rooms)[rid := g.value])
        && resp == Response(200, RoomJson(rid, g.value))
    ensures old(db.Snapshot().Referential()) ==> db.Snapshot().Referential()
    ensures old(RoomDao.UniquePlaces(db.rooms)) ==> RoomDao.UniquePlaces(db.rooms)
  {
    if rid !in db.rooms {
      return ErrorObj(404, "NOT FOUND");
    }
    var g := ValidateRoomPayload(p);
    if g.Stop? {
      return g.response;
    }
    var row := g.value;
    var existing := RoomDao.RoomByBuildingNumber(db.rooms, row.building, row.roomNumber);
    if existing.Some? && existing.value != rid {
      return ErrorObj(409, ExistsMessage(row));
    }
    if IntColumn(JInt(row.capacity)).None? {
      return Uncaught(DbException);
    }
    if RoomDao.UniquePlaces(db.rooms) {
      RoomDao.PlaceWriteKeepsUnique(db.rooms, rid, row);
    }
    var updated := RoomDao.UpdateRoom(db, rid, row);
    resp := Response(200, RoomJson(rid, db.rooms[rid]));
  }

  /** `deleteRoom(rid)`: the DAO's -2 and -1 become 409 and 404, a deletion
      is answered 204 with an empty body. */
  method DeleteRoom(db: Database, rid: nat) returns (resp: Response)
    requires db.Valid()
    modifies db
    ensures db.Valid()
    ensures RoomDao.Referenced(old(db.sections), rid) ==>
      resp == ErrorObj(409, "delete room; room is referenced by a section") && db.Snapshot() == old(db.Snapshot())
    ensures !RoomDao.Referenced(old(db.sections), rid) && rid !in old(db.rooms) ==>
      resp == ErrorObj(404, "NOT FOUND") && db.Snapshot() == old(db.Snapshot())
    ensures !RoomDao.Referenced(old(db.sections), rid) && rid in old(db.rooms) ==>
      resp == Response(204, JStr("")) && db.Snapshot() == old(db.Snapshot()).(rooms := old(db.rooms) - {rid})
    ensures old(db.Snapshot().Referential()) ==> db.Snapshot().Referential()
    ensures old(RoomDao.UniquePlaces(db.rooms)) ==> RoomDao.UniquePlaces(db.rooms)
  {
    ghost var before := db.rooms;
    var deleted := RoomDao.DeleteRoom(db, rid);
    assert db.rooms == before || db.rooms == before - {rid};
    if deleted == -1 {
      return ErrorObj(404, "NOT FOUND");
    } else if deleted == -2 {
      return ErrorObj(409, "delete room; room is referenced by a section");
    }
    resp := Response(204, JStr(""));
  }
}
