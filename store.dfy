/** The catalog database: one table per entity, keyed by its serial id (the
    requisite table by its (classid, reqid) pair), and the serial counters
    that hand out fresh ids on insert. */
module Store {

  /** A bcrypt hash, kept symbolic: the salt `gensalt()` drew and the
      password it was computed from. */
  datatype PasswordHash = Bcrypt(salt: string, secret: string)

  /** `bcrypt.hashpw(password, salt)` */
  function Hashpw(password: string, salt: string): (h: PasswordHash)
    ensures h.salt == salt
  {
    Bcrypt(salt, password)
  }

  /** `bcrypt.checkpw(password, h)` */
  predicate Checkpw(password: string, h: PasswordHash) {
    h.secret == password
  }

  /** A hash checks against exactly the password it was made from. This is
      the bcrypt abstraction itself, recorded as a lemma: with `Checkpw`
      defined by the secret a hash carries, it holds by definition. */
  lemma CheckpwHashpw(p: string, q: string, salt: string)
    ensures Checkpw(q, Hashpw(p, salt)) <==> q == p
  {
  }

  datatype ClassRow = ClassRow(cname: string, ccode: string, cdesc: string, term: string,
                               years: string, cred: int, csyllabus: string)

  /** A meeting pattern; times are minutes since midnight. */
  datatype MeetingRow = MeetingRow(ccode: string, starttime: int, endtime: int, cdays: string)

  datatype RoomRow = RoomRow(building: string, roomNumber: string, capacity: int)

  datatype SectionRow = SectionRow(roomid: int, cid: int, mid: int, semester: string,
                                   years: string, capacity: int)

  datatype UserRow = UserRow(username: string, password: PasswordHash)

  /** The contents of every table at one moment. */
  datatype Catalog = Catalog(
    classes: map<int, ClassRow>,
    meetings: map<int, MeetingRow>,
    rooms: map<int, RoomRow>,
    sections: map<int, SectionRow>,
    requisites: map<(int, int), bool>,
    users: map<int, UserRow>,
    nextCid: int, nextMid: int, nextRid: int, nextSid: int, nextUid: int)
  {
    /** Every id was handed out by its serial counter, so the counter's next
        value is fresh. */
    predicate Valid() {
      && (forall k :: k in classes ==> k < nextCid)
      && (forall k :: k in meetings ==> k < nextMid)
      && (forall k :: k in rooms ==> k < nextRid)
      && (forall k :: k in sections ==> k < nextSid)
      && (forall k :: k in users ==> k < nextUid)
    }

    /** The foreign keys: a section names an existing class, meeting and
        room; a requisite names two existing classes. */
    predicate Referential() {
      && (forall s :: s in sections ==> sections[s].cid in classes)
      && (forall s :: s in sections ==> sections[s].mid in meetings)
      && (forall s :: s in sections ==> sections[s].roomid in rooms)
      && (forall p :: p in requisites ==> p.0 in classes && p.1 in classes)
    }
  }

  /** Adding or overwriting a class leaves every foreign key resolved. */
  lemma ClassWriteKeepsReferential(cat: Catalog, k: int, row: ClassRow, next: int)
    requires cat.Referential()
    ensures cat.(classes := cat.classes[k := row], nextCid := next).Referential()
  {
  }

  /** The live database that the data-access objects read and write. */
  class Database {
    var classes: map<int, ClassRow>
    var meetings: map<int, MeetingRow>
    var rooms: map<int, RoomRow>
    var sections: map<int, SectionRow>
    var requisites: map<(int, int), bool>
    var users: map<int, UserRow>
    var nextCid: int
    var nextMid: int
    var nextRid: int
    var nextSid: int
    var nextUid: int

    function Snapshot(): Catalog
      reads this
    {
      Catalog(classes, meetings, rooms, sections, requisites, users,
              nextCid, nextMid, nextRid, nextSid, nextUid)
    }

    predicate Valid()
      reads this
    {
      Snapshot().Valid()
    }

    /** An empty database whose serial counters start at 1. */
    constructor ()
      ensures Snapshot() == Catalog(map[], map[], map[], map[], map[], map[], 1, 1, 1, 1, 1)
      ensures Valid() && Snapshot().Referential()
    {
      classes, meetings, rooms, sections, requisites, users := map[], map[], map[], map[], map[], map[];
      nextCid, nextMid, nextRid, nextSid, nextUid := 1, 1, 1, 1, 1;
    }
  }
}
