/** The meeting table's data-access object. */
module MeetingDao {
  import opened Common
  import opened Store
  import SectionDao

  /** `getAllMeetings()`: every row, ordered by mid. */
  function GetAllMeetings(meetings: map<int, MeetingRow>): (r: seq<(int, MeetingRow)>)
    ensures forall i, j :: 0 <= i < j < |r| ==> r[i].0 < r[j].0
    ensures forall mid, row :: (mid, row) in r <==> mid in meetings && meetings[mid] == row
  {
    SortedRows(meetings)
  }

  /** `getMeetingByCcode(ccode)`: the id of a meeting with that ccode, or
      None. Of several, the model returns the least id. */
  function MeetingByCcode(meetings: map<int, MeetingRow>, ccode: string): (r: Option<int>)
    ensures r.Some? ==> r.value in meetings && meetings[r.value].ccode == ccode
    ensures r.None? <==> forall mid :: mid in meetings ==> meetings[mid].ccode != ccode
  {
    if exists mid :: mid in meetings && meetings[mid].ccode == ccode then
      CcodeWitness(meetings, ccode);
      Some(Least(CcodeIds(meetings, ccode)))
    else
      None
  }

  function CcodeIds(meetings: map<int, MeetingRow>, ccode: string): set<int> {
    set mid | mid in meetings && meetings[mid].ccode == ccode
  }

  lemma CcodeWitness(meetings: map<int, MeetingRow>, ccode: string)
    requires exists mid :: mid in meetings && meetings[mid].ccode == ccode
    ensures exists k :: k in CcodeIds(meetings, ccode)
  {
    var w :| w in meetings && meetings[w].ccode == ccode;
    var k: int := w;
    assert k in CcodeIds(meetings, ccode);
  }

  /** Some section uses the meeting. */
  predicate Referenced(sections: map<int, SectionRow>, mid: int) {
    exists s :: s in sections && sections[s].mid == mid
  }

  /** Removing a meeting no section uses leaves every section's meeting in
      place, so the double-booking invariant is untouched. */
  lemma {:induction false} RemoveUnreferenced(sections: map<int, SectionRow>, meetings: map<int, MeetingRow>, mid: int)
    requires !Referenced(sections, mid)
    ensures SectionDao.NoDoubleBooking(sections, meetings) ==> SectionDao.NoDoubleBooking(sections, meetings - {mid})
  {
    if SectionDao.NoDoubleBooking(sections, meetings) {
      forall s1, s2 | s1 in sections && s2 in sections && s1 != s2
        ensures !SectionDao.Clash(meetings - {mid}, sections[s1], sections[s2])
      {
        assert sections[s1].mid != mid && sections[s2].mid != mid;
        assert !SectionDao.Clash(meetings, sections[s1], sections[s2]);
      }
    }
  }

  /** `insertMeeting`: one new row under the next serial id. */
  method InsertMeeting(db: Database, row: MeetingRow) returns (mid: int)
    requires db.Valid()
    modifies db
    ensures mid == old(db.nextMid) && mid !in old(db.meetings)
    ensures db.Snapshot() == old(db.Snapshot()).(meetings := old(db.meetings)[mid := row], nextMid := mid + 1)
    ensures db.Valid()
  {
    mid := db.nextMid;
    db.meetings := db.meetings[mid := row];
    db.nextMid := db.nextMid + 1;
  }

  /** `updateMeeting`: overwrites the four columns of row `mid`, if there is
      one, and returns `mid` either way. */
  method UpdateMeeting(db: Database, mid: int, row: MeetingRow) returns (r: int)
    requires db.Valid()
    modifies db
    ensures r == mid
    ensures db.Snapshot() == old(db.Snapshot()).(meetings :=
      if mid in old(db.meetings) then old(db.meetings)[mid := row] else old(db.meetings))
    ensures db.Valid()
  {
    if mid in db.meetings {
      db.meetings := db.meetings[mid := row];
    }
    r := mid;
  }

  /** `deleteMeeting`: -2 while a section uses the meeting, -1 for an absent
      meeting, otherwise the row is removed and its id returned. */
  method DeleteMeeting(db: Database, mid: int) returns (r: int)
    requires db.Valid()
    modifies db
    ensures Referenced(old(db.sections), mid) ==> r == -2 && db.Snapshot() == old(db.Snapshot())
    ensures !Referenced(old(db.sections), mid) && mid !in old(db.meetings) ==> r == -1 && db.Snapshot() == old(db.Snapshot())
    ensures !Referenced(old(db.sections), mid) && mid in old(db.meetings) ==>
      r == mid && db.Snapshot() == old(db.Snapshot()).(meetings := old(db.meetings) - {mid})
    ensures db.Valid()
    ensures old(db.Snapshot().Referential()) ==> db.Snapshot().Referential()
    ensures old(SectionDao.NoDoubleBooking(db.sections, db.meetings)) ==> SectionDao.NoDoubleBooking(db.sections, db.meetings)
  {
    if Referenced(db.sections, mid) {
      return -2;
    }
    if mid !in db.meetings {
      return -1;
    }
    RemoveUnreferenced(db.sections, db.meetings, mid);
    db.meetings := db.meetings - {mid};
    r := mid;
  }
}
