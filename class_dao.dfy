/** The class table's data-access object. */
module ClassDao {
  import opened Common
  import opened Store

  /** `getAllClasses()`: every row, ordered by cid. */
  function GetAllClasses(classes: map<int, ClassRow>): (r: seq<(int, ClassRow)>)
    ensures forall i, j :: 0 <= i < j < |r| ==> r[i].0 < r[j].0
    ensures forall cid, row :: (cid, row) in r <==> cid in classes && classes[cid] == row
  {
    SortedRows(classes)
  }

  function NameCodeIds(classes: map<int, ClassRow>, cname: string, ccode: string): set<int> {
    set cid | cid in classes && classes[cid].cname == cname && classes[cid].ccode == ccode
  }

  lemma NameCodeWitness(classes: map<int, ClassRow>, cname: string, ccode: string)
    requires exists cid :: cid in classes && classes[cid].cname == cname && classes[cid].ccode == ccode
    ensures exists k :: k in NameCodeIds(classes, cname, ccode)
  {
    var w :| w in classes && classes[w].cname == cname && classes[w].ccode == ccode;
    var k: int := w;
    assert k in NameCodeIds(classes, cname, ccode);
  }

  /** `getClassByNameAndCode(cname, ccode)`: a row matching both columns, or
      None. Of several, the model returns the one with the least cid. */
  function ClassByNameAndCode(classes: map<int, ClassRow>, cname: string, ccode: string): (r: Option<(int, ClassRow)>)
    ensures r.Some? ==> r.value.0 in classes && classes[r.value.0] == r.value.1
                        && r.value.1.cname == cname && r.value.1.ccode == ccode
    ensures r.None? <==> forall cid :: cid in classes ==> classes[cid].cname != cname || classes[cid].ccode != ccode
  {
    if exists cid :: cid in classes && classes[cid].cname == cname && classes[cid].ccode == ccode then
      NameCodeWitness(classes, cname, ccode);
      var cid := Least(NameCodeIds(classes, cname, ccode));
      Some((cid, classes[cid]))
    else
      None
  }

  /** `getCourseIDByCode(cname, ccode)`: only the cid of that row. */
  function CourseIdByCode(classes: map<int, ClassRow>, cname: string, ccode: string): (r: Option<int>)
    ensures r.None? <==> ClassByNameAndCode(classes, cname, ccode).None?
    ensures r.Some? ==> r.value == ClassByNameAndCode(classes, cname, ccode).value.0
                        && classes[r.value].cname == cname && classes[r.value].ccode == ccode
  {
    match ClassByNameAndCode(classes, cname, ccode)
    case Some(found) => Some(found.0)
    case None => None
  }

  /** No two classes share both name and code. */
  predicate UniqueNameCode(classes: map<int, ClassRow>) {
    forall a, b :: a in classes && b in classes && a != b ==>
      classes[a].cname != classes[b].cname || classes[a].ccode != classes[b].ccode
  }

  /** Under unique name+code pairs the lookup finds the one class holding the
      pair, whichever witness a query would pick. */
  lemma {:induction false} LookupOfUnique(classes: map<int, ClassRow>, cid: int)
    requires UniqueNameCode(classes) && cid in classes
    ensures ClassByNameAndCode(classes, classes[cid].cname, classes[cid].ccode) == Some((cid, classes[cid]))
  {
    var r := ClassByNameAndCode(classes, classes[cid].cname, classes[cid].ccode);
    assert r.Some?;
  }

  /** Storing a row under a fresh id keeps pairs unique when no class
      holds its name+code pair yet. */
  lemma FreshPairKeepsUnique(classes: map<int, ClassRow>, k: int, row: ClassRow)
    requires UniqueNameCode(classes) && k !in classes
    requires ClassByNameAndCode(classes, row.cname, row.ccode).None?
    ensures UniqueNameCode(classes[k := row])
  {
    assert forall b :: b in classes ==> classes[b].cname != row.cname || classes[b].ccode != row.ccode;
  }

  /** Some section or requisite refers to the class. */
  predicate SectionUses(sections: map<int, SectionRow>, cid: int) {
    exists s :: s in sections && sections[s].cid == cid
  }

  predicate RequisiteUses(requisites: map<(int, int), bool>, cid: int) {
    exists p :: p in requisites && (p.0 == cid || p.1 == cid)
  }

  /** `insertClass`: one new row under the next serial id. */
  method InsertClass(db: Database, row: ClassRow) returns (cid: int)
    requires db.Valid()
    modifies db
    ensures cid == old(db.nextCid) && cid !in old(db.classes)
    ensures db.Snapshot() == old(db.Snapshot()).(classes := old(db.classes)[cid := row], nextCid := cid + 1)
    ensures db.Valid()
    ensures old(db.Snapshot().Referential()) ==> db.Snapshot().Referential()
    ensures old(UniqueNameCode(db.classes)) && old(ClassByNameAndCode(db.classes, row.cname, row.ccode)).None? ==>
      UniqueNameCode(db.classes)
  {
    ghost var before := db.Snapshot();
    if UniqueNameCode(db.classes) && ClassByNameAndCode(db.classes, row.cname, row.ccode).None? {
      FreshPairKeepsUnique(db.classes, db.nextCid, row);
    }
    if before.Referential() {
      ClassWriteKeepsReferential(before, db.nextCid, row, db.nextCid + 1);
    }
    cid := db.nextCid;
    db.classes := db.classes[cid := row];
    db.nextCid := db.nextCid + 1;
  }

  /** `updateClass`: -1 when no row has `cid`, otherwise all seven columns of
      that row are overwritten and `cid` is returned. */
  method UpdateClass(db: Database, cid: int, row: ClassRow) returns (r: int)
    requires db.Valid()
    modifies db
    ensures cid !in old(db.classes) ==> r == -1 && db.Snapshot() == old(db.Snapshot())
    ensures cid in old(db.classes) ==> r == cid && db.Snapshot() == old(db.Snapshot()).(classes := old(db.classes)[cid := row])
    ensures db.Valid()
  {
    if cid !in db.classes {
      return -1;
    }
    db.classes := db.classes[cid := row];
    r := cid;
  }

  /** `deleteClass`: -2 while a section, then while a requisite, refers to
      the class; -1 for an absent class; otherwise the row is removed and
      its id returned. */
  method DeleteClass(db: Database, cid: int) returns (r: int)
    requires db.Valid()
    modifies db
    ensures SectionUses(old(db.sections), cid) ==> r == -2 && db.Snapshot() == old(db.Snapshot())
    ensures RequisiteUses(old(db.requisites), cid) ==> r == -2 && db.Snapshot() == old(db.Snapshot())
    ensures !SectionUses(old(db.sections), cid) && !RequisiteUses(old(db.requisites), cid) && cid !in old(db.classes) ==>
      r == -1 && db.Snapshot() == old(db.Snapshot())
    ensures !SectionUses(old(db.sections), cid) && !RequisiteUses(old(db.requisites), cid) && cid in old(db.classes) ==>
      r == cid && db.Snapshot() == old(db.Snapshot()).(classes := old(db.classes) - {cid})
    ensures db.Valid()
    ensures old(db.Snapshot().Referential()) ==> db.Snapshot().Referential()
  {
    if SectionUses(db.sections, cid) {
      return -2;
    }
    if RequisiteUses(db.requisites, cid) {
      return -2;
    }
    if cid !in db.classes {
      return -1;
    }
    db.classes := db.classes - {cid};
    r := cid;
  }
}
