/** The room table's data-access object. */
module RoomDao {
  import opened Common
  import opened Store

  /** `getAllRooms()`: every row, ordered by rid. */
  function GetAllRooms(rooms: map<int, RoomRow>): (r: seq<(int, RoomRow)>)
    ensures forall i, j :: 0 <= i < j < |r| ==> r[i].0 < r[j].0
    ensures forall rid, row :: (rid, row) in r <==> rid in rooms && rooms[rid] == row
  {
    SortedRows(rooms)
  }

  function PlaceIds(rooms: map<int, RoomRow>, building: string, number: string): set<int> {
    set rid | rid in rooms && rooms[rid].building == building && rooms[rid].roomNumber == number
  }

  lemma PlaceWitness(rooms: map<int, RoomRow>, building: string, number: string)
    requires exists rid :: rid in rooms && rooms[rid].building == building && rooms[rid].roomNumber == number
    ensures exists k :: k in PlaceIds(rooms, building, number)
  {
    var w :| w in rooms && rooms[w].building == building && rooms[w].roomNumber == number;
    var k: int := w;
    assert k in PlaceIds(rooms, building, number);
  }

  /** `getRoomByBuildingNumber(building, room_number)`: a room matching both
      columns, or None. Of several, the model returns the least rid. */
  function RoomByBuildingNumber(rooms: map<int, RoomRow>, building: string, number: string): (r: Option<int>)
    ensures r.Some? ==> r.value in rooms && rooms[r.value].building == building && rooms[r.value].roomNumber == number
    ensures r.None? <==> forall rid :: rid in rooms ==> rooms[rid].building != building || rooms[rid].roomNumber != number
  {
    if exists rid :: rid in rooms && rooms[rid].building == building && rooms[rid].roomNumber == number then
      PlaceWitness(rooms, building, number);
      Some(Least(PlaceIds(rooms, building, number)))
    else
      None
  }

  /** No two rooms share building and number. */
  predicate UniquePlaces(rooms: map<int, RoomRow>) {
    forall a, b :: a in rooms && b in rooms && a != b ==>
      rooms[a].building != rooms[b].building || rooms[a].roomNumber != rooms[b].roomNumber
  }

  /** Under unique places the lookup finds the one room at a stored place. */
  lemma {:induction false} LookupOfUnique(rooms: map<int, RoomRow>, rid: int)
    requires UniquePlaces(rooms) && rid in rooms
    ensures RoomByBuildingNumber(rooms, rooms[rid].building, rooms[rid].roomNumber) == Some(rid)
  {
    var r := RoomByBuildingNumber(rooms, rooms[rid].building, rooms[rid].roomNumber);
    assert r.Some?;
  }

  /** Writing a row under `k` keeps places unique when the lookup finds no
      room at its place, or only room `k` itself. */
  lemma PlaceWriteKeepsUnique(rooms: map<int, RoomRow>, k: int, row: RoomRow)
    requires UniquePlaces(rooms)
    requires var e := RoomByBuildingNumber(rooms, row.building, row.roomNumber); e.None? || e.value == k
    ensures UniquePlaces(rooms[k := row])
  {
    var e := RoomByBuildingNumber(rooms, row.building, row.roomNumber);
    forall b | b in rooms && b != k
      ensures rooms[b].building != row.building || rooms[b].roomNumber != row.roomNumber
    {
      if e.Some? {
        assert e.value == k;
      }
    }
  }

  /** Some section is held in the room. */
  predicate Referenced(sections: map<int, SectionRow>, rid: int) {
    exists s :: s in sections && sections[s].roomid == rid
  }

  /** `insertRoom`: one new row under the next serial id. */
  method InsertRoom(db: Database, row: RoomRow) returns (rid: int)
    requires db.Valid()
    modifies db
    ensures rid == old(db.nextRid) && rid !in old(db.rooms)
    ensures db.Snapshot() == old(db.Snapshot()).(rooms := old(db.rooms)[rid := row], nextRid := rid + 1)
    ensures db.Valid()
  {
    rid := db.nextRid;
    db.rooms := db.rooms[rid := row];
    db.nextRid := db.nextRid + 1;
  }

  /** `updateRoom`: overwrites row `rid`, if there is one, and returns `rid`
      either way. */
  method UpdateRoom(db: Database, rid: int, row: RoomRow) returns (r: int)
    requires db.Valid()
    modifies db
    ensures r == rid
    ensures db.Snapshot() == old(db.Snapshot()).(rooms :=
      if rid in old(db.rooms) then old(db.rooms)[rid := row] else old(db.rooms))
    ensures db.Valid()
  {
    if rid in db.rooms {
      db.rooms := db.rooms[rid := row];
    }
    r := rid;
  }

  /** `deleteRoom`: -2 while a section is held in the room, -1 for an absent
      room, otherwise the row is removed and its id returned. */
  method DeleteRoom(db: Database, rid: int) returns (r: int)
    requires db.Valid()
    modifies db
    ensures Referenced(old(db.sections), rid) ==> r == -2 && db.Snapshot() == old(db.Snapshot())
    ensures !Referenced(old(db.sections), rid) && rid !in old(db.rooms) ==> r == -1 && db.Snapshot() == old(db.Snapshot())
    ensures !Referenced(old(db.sections), rid) && rid in old(db.rooms) ==>
      r == rid && db.Snapshot() == old(db.Snapshot()).(rooms := old(db.rooms) - {rid})
    ensures db.Valid()
    ensures old(db.Snapshot().Referential()) ==> db.Snapshot().Referential()
  {
    if Referenced(db.sections, rid) {
      return -2;
    }
    if rid !in db.rooms {
      return -1;
    }
    db.rooms := db.rooms - {rid};
    r := rid;
  }
}
