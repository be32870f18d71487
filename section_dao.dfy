/** The section table's data-access object: the schedule-conflict query and
    the INSERT, UPDATE and DELETE statements. */
module SectionDao {
  import opened Common
  import opened Store

  /** Two meetings overlap when each starts before the other ends; meetings
      that only touch do not. */
  predicate Overlaps(a: MeetingRow, b: MeetingRow) {
    a.starttime < b.endtime && a.endtime > b.starttime
  }

  /** Two sections are double-booked: same room, meetings on the same day
      pattern, overlapping times. */
  predicate Clash(meetings: map<int, MeetingRow>, a: SectionRow, b: SectionRow) {
    && a.roomid == b.roomid
    && a.mid in meetings && b.mid in meetings
    && meetings[a.mid].cdays == meetings[b.mid].cdays
    && Overlaps(meetings[a.mid], meetings[b.mid])
  }

  /** The WHERE clause of the conflict query for the existing section `s`,
      against a new booking of meeting `mid` in room `roomid`, optionally
      ignoring the section being updated. */
  predicate ConflictsWith(sections: map<int, SectionRow>, meetings: map<int, MeetingRow>,
                          s: int, roomid: int, mid: int, exclude: Option<int>)
    requires s in sections
  {
    && sections[s].roomid == roomid
    && (exclude.None? || s != exclude.value)
    && sections[s].mid in meetings && mid in meetings
    && meetings[sections[s].mid].cdays == meetings[mid].cdays
    && meetings[sections[s].mid].starttime < meetings[mid].endtime
    && meetings[sections[s].mid].endtime > meetings[mid].starttime
  }

  /** `hasScheduleConflict(roomid, mid, sid)`: the id of a conflicting
      section, or None when there is none. Of several, `fetchone()` returns
      one; the model returns the least id. */
  function HasScheduleConflict(sections: map<int, SectionRow>, meetings: map<int, MeetingRow>,
                               roomid: int, mid: int, exclude: Option<int>): (r: Option<int>)
    ensures r.Some? ==> r.value in sections && ConflictsWith(sections, meetings, r.value, roomid, mid, exclude)
    ensures r.None? <==> forall s :: s in sections ==> !ConflictsWith(sections, meetings, s, roomid, mid, exclude)
  {
    if exists s :: s in sections && ConflictsWith(sections, meetings, s, roomid, mid, exclude) then
      SomeHit(sections, meetings, roomid, mid, exclude);
      Some(Least(Hits(sections, meetings, roomid, mid, exclude)))
    else
      None
  }

  /** The ids the conflict query's WHERE clause selects. */
  function Hits(sections: map<int, SectionRow>, meetings: map<int, MeetingRow>,
                roomid: int, mid: int, exclude: Option<int>): set<int>
  {
    set s | s in sections && ConflictsWith(sections, meetings, s, roomid, mid, exclude)
  }

  lemma SomeHit(sections: map<int, SectionRow>, meetings: map<int, MeetingRow>,
                roomid: int, mid: int, exclude: Option<int>)
    requires exists s :: s in sections && ConflictsWith(sections, meetings, s, roomid, mid, exclude)
    ensures exists k :: k in Hits(sections, meetings, roomid, mid, exclude)
  {
    var w :| w in sections && ConflictsWith(sections, meetings, w, roomid, mid, exclude);
    var k: int := w;
    assert k in Hits(sections, meetings, roomid, mid, exclude);
  }

  /** A conflict of the query is a clash of the stored section with the new
      booking, and conversely. */
  lemma ConflictIsClash(sections: map<int, SectionRow>, meetings: map<int, MeetingRow>,
                        s: int, row: SectionRow, exclude: Option<int>)
    requires s in sections
    ensures ConflictsWith(sections, meetings, s, row.roomid, row.mid, exclude)
            <==> (exclude.None? || s != exclude.value) && Clash(meetings, sections[s], row)
  {
  }

  /** Double-booking is symmetric. */
  lemma ClashSymmetric(meetings: map<int, MeetingRow>, a: SectionRow, b: SectionRow)
    ensures Clash(meetings, a, b) <==> Clash(meetings, b, a)
  {
  }

  /** No two sections of the table are double-booked. */
  predicate NoDoubleBooking(sections: map<int, SectionRow>, meetings: map<int, MeetingRow>) {
    forall s1, s2 :: s1 in sections && s2 in sections && s1 != s2 ==> !Clash(meetings, sections[s1], sections[s2])
  }

  /** Touching intervals are no conflict: a section whose meeting ends when
      the new one starts, or starts when the new one ends, is never returned. */
  lemma TouchingIsNoConflict(sections: map<int, SectionRow>, meetings: map<int, MeetingRow>,
                              s: int, roomid: int, mid: int, exclude: Option<int>)
    requires s in sections && sections[s].mid in meetings && mid in meetings
    requires meetings[sections[s].mid].endtime == meetings[mid].starttime
             || meetings[sections[s].mid].starttime == meetings[mid].endtime
    ensures HasScheduleConflict(sections, meetings, roomid, mid, exclude) != Some(s)
  {
  }

  /** The excluded section is never returned. */
  lemma ExcludedNeverReturned(sections: map<int, SectionRow>, meetings: map<int, MeetingRow>,
                              roomid: int, mid: int, sid: int)
    ensures HasScheduleConflict(sections, meetings, roomid, mid, Some(sid)) != Some(sid)
  {
  }

  /** Semester and year play no part: two tables that agree on every
      section's room and meeting give the same answer. */
  lemma {:induction false} ConflictIgnoresTerm(sections: map<int, SectionRow>, other: map<int, SectionRow>,
                                               meetings: map<int, MeetingRow>, roomid: int, mid: int, exclude: Option<int>)
    requires sections.Keys == other.Keys
    requires forall s :: s in sections ==> sections[s].roomid == other[s].roomid && sections[s].mid == other[s].mid
    ensures HasScheduleConflict(sections, meetings, roomid, mid, exclude) == HasScheduleConflict(other, meetings, roomid, mid, exclude)
  {
    assert Hits(sections, meetings, roomid, mid, exclude) == Hits(other, meetings, roomid, mid, exclude);
  }

  /** Adding a section that the conflict query clears keeps the table free of
      double bookings. */
  lemma {:induction false} InsertKeepsNoDoubleBooking(sections: map<int, SectionRow>, meetings: map<int, MeetingRow>,
                                                      sid: int, row: SectionRow)
    requires NoDoubleBooking(sections, meetings)
    requires sid !in sections
    requires HasScheduleConflict(sections, meetings, row.roomid, row.mid, None).None?
    ensures NoDoubleBooking(sections[sid := row], meetings)
  {
    var after := sections[sid := row];
    forall s1, s2 | s1 in after && s2 in after && s1 != s2
      ensures !Clash(meetings, after[s1], after[s2])
    {
      if s1 == sid {
        ConflictIsClash(sections, meetings, s2, row, None);
        ClashSymmetric(meetings, after[s1], after[s2]);
      } else if s2 == sid {
        ConflictIsClash(sections, meetings, s1, row, None);
      }
    }
  }

  /** Overwriting a section with a booking that the conflict query clears,
      ignoring that section itself, keeps the table free of double bookings. */
  lemma {:induction false} UpdateKeepsNoDoubleBooking(sections: map<int, SectionRow>, meetings: map<int, MeetingRow>,
                                                      sid: int, row: SectionRow)
    requires NoDoubleBooking(sections, meetings)
    requires HasScheduleConflict(sections, meetings, row.roomid, row.mid, Some(sid)).None?
    ensures NoDoubleBooking(sections[sid := row], meetings)
  {
    var after := sections[sid := row];
    forall s1, s2 | s1 in after && s2 in after && s1 != s2
      ensures !Clash(meetings, after[s1], after[s2])
    {
      if s1 == sid {
        ConflictIsClash(sections, meetings, s2, row, Some(sid));
        ClashSymmetric(meetings, after[s1], after[s2]);
      } else if s2 == sid {
        ConflictIsClash(sections, meetings, s1, row, Some(sid));
      }
    }
  }

  /** Re-saving a section with its own room and meeting never conflicts with
      itself, only with other sections. */
  lemma ResaveConflictsOnlyWithOthers(sections: map<int, SectionRow>, meetings: map<int, MeetingRow>, sid: int)
    requires sid in sections
    requires NoDoubleBooking(sections, meetings)
    ensures HasScheduleConflict(sections, meetings, sections[sid].roomid, sections[sid].mid, Some(sid)).None?
  {
    forall s | s in sections
      ensures !ConflictsWith(sections, meetings, s, sections[sid].roomid, sections[sid].mid, Some(sid))
    {
      ConflictIsClash(sections, meetings, s, sections[sid], Some(sid));
    }
  }

  /** `insertSection`: one new row under the next serial id, which is returned. */
  method InsertSection(db: Database, row: SectionRow) returns (sid: int)
    requires db.Valid()
    modifies db
    ensures sid == old(db.nextSid) && sid !in old(db.sections)
    ensures db.Snapshot() == old(db.Snapshot()).(sections := old(db.sections)[sid := row], nextSid := sid + 1)
    ensures db.Valid()
  {
    sid := db.nextSid;
    db.sections := db.sections[sid := row];
    db.nextSid := db.nextSid + 1;
  }

  /** `updateSection`: overwrites all six columns of row `sid`, if there is
      one, and returns `sid` either way. */
  method UpdateSection(db: Database, sid: int, row: SectionRow) returns (r: int)
    requires db.Valid()
    modifies db
    ensures r == sid
    ensures db.Snapshot() == old(db.Snapshot()).(sections :=
      if sid in old(db.sections) then old(db.sections)[sid := row] else old(db.sections))
    ensures db.Valid()
  {
    if sid in db.sections {
      db.sections := db.sections[sid := row];
    }
    r := sid;
  }

  /** `deleteSection`: -1 for an absent id, otherwise the row is removed and
      its id returned. */
  method DeleteSection(db: Database, sid: int) returns (r: int)
    requires db.Valid()
    modifies db
    ensures sid !in old(db.sections) ==> r == -1 && db.Snapshot() == old(db.Snapshot())
    ensures sid in old(db.sections) ==> r == sid && db.Snapshot() == old(db.Snapshot()).(sections := old(db.sections) - {sid})
    ensures db.Valid()
  {
    if sid !in db.sections {
      return -1;
    }
    db.sections := db.sections - {sid};
    r := sid;
  }
}
