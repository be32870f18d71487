/** The class endpoints: the term grammar, the validation chain in front of
    INSERT, the merge-then-validate chain in front of UPDATE, and the status
    mapping of DELETE. */
module ClassHandler {
  import opened Common
  import opened PyText
  import opened Json
  import opened Http
  import opened Sql
  import opened Store
  import ClassDao

  const ValidSingleTerms: set<string> := {"First Semester", "Second Semester"}
  const OnDemand: string := "According to Demand"
  const ValidYears: set<string> := {"Every Year", "According to Demand", "Odd Years"}

  /** `{p.strip() for p in term.split(",")}` */
  function TermParts(term: string): set<string> {
    set p | p in Split(term, ',') :: Strip(p)
  }

  /** `is_valid_term(term)` on a str. */
  predicate IsValidTerm(term: string) {
    term == OnDemand || (TermParts(term) <= ValidSingleTerms && |TermParts(term)| > 0)
  }

  /** A term is valid exactly when it is "According to Demand" or every
      comma-separated piece strips to one of the two semesters; the
      non-emptiness test can never fail, since a split has a piece. */
  lemma TermMeaning(term: string)
    ensures IsValidTerm(term) <==>
      term == OnDemand || forall k :: 0 <= k < |Split(term, ',')| ==> Strip(Split(term, ',')[k]) in ValidSingleTerms
  {
    var parts := Split(term, ',');
    var ts := TermParts(term);
    InTermParts(term, 0);
    forall k | 0 <= k < |parts| ensures Strip(parts[k]) in ts {
      InTermParts(term, k);
    }
    if forall k :: 0 <= k < |parts| ==> Strip(parts[k]) in ValidSingleTerms {
      forall t | t in ts ensures t in ValidSingleTerms {
        var k := PieceOf(parts, t);
      }
    }
  }

  lemma InTermParts(term: string, k: int)
    requires 0 <= k < |Split(term, ',')|
    ensures Strip(Split(term, ',')[k]) in TermParts(term)
  {
  }

  lemma PieceOf(parts: seq<string>, t: string) returns (k: int)
    requires t in (set p | p in parts :: Strip(p))
    ensures 0 <= k < |parts| && Strip(parts[k]) == t
  {
    var p :| p in parts && Strip(p) == t;
    k :| 0 <= k < |parts| && parts[k] == p;
  }

  /** The empty term is rejected: its one piece strips to "". */
  lemma EmptyTermRejected()
    ensures !IsValidTerm("")
  {
    assert Split("", ',') == [""];
    assert TermParts("") == {Strip("")};
  }

  /** Any comma-joined list of pieces that strip to semesters is accepted,
      "First Semester,Second Semester" among them. */
  lemma {:induction false} TermListAccepted(pieces: seq<string>)
    requires |pieces| >= 1
    requires forall k :: 0 <= k < |pieces| ==> ',' !in pieces[k] && Strip(pieces[k]) in ValidSingleTerms
    ensures IsValidTerm(Join(pieces, ','))
  {
    SplitOfJoin(pieces, ',');
    TermMeaning(Join(pieces, ','));
  }

  /** `is_valid_term(term)` on any JSON value: None stands for the
      AttributeError `.split` raises on a non-str. */
  function TermVerdict(j: Json): (r: Option<bool>)
    ensures r.None? <==> !j.JStr?
    ensures j.JStr? ==> r == Some(IsValidTerm(j.s))
  {
    if j == JStr(OnDemand) then Some(true)
    else if j.JStr? then Some(IsValidTerm(j.s))
    else None
  }

  /** The seven fields `insertClass` requires. */
  predicate HasClassFields(c: Payload) {
    && "cname" in c && "ccode" in c && "cdesc" in c && "term" in c
    && "years" in c && "cred" in c && "csyllabus" in c
  }

  /** `isinstance(cred, int) and cred >= 0`; a bool is an int here. */
  predicate CredOk(j: Json) {
    PyInt(j).Some? && PyInt(j).value >= 0
  }

  predicate ClassYearsOk(j: Json) {
    j.JStr? && j.s in ValidYears
  }

  /** The seven values as PostgreSQL stores them, or None when it rejects
      one, which the DAO turns into a None result. */
  function ClassColumns(v: Payload): (r: Option<ClassRow>)
    requires HasClassFields(v)
    ensures r.Some? <==>
      && TextColumn(v["cname"]).Some? && TextColumn(v["ccode"]).Some? && TextColumn(v["cdesc"]).Some?
      && TextColumn(v["term"]).Some? && TextColumn(v["years"]).Some? && IntColumn(v["cred"]).Some?
      && TextColumn(v["csyllabus"]).Some?
    ensures r.Some? ==> r.value == ClassRow(TextColumn(v["cname"]).value, TextColumn(v["ccode"]).value,
                                            TextColumn(v["cdesc"]).value, TextColumn(v["term"]).value,
                                            TextColumn(v["years"]).value, IntColumn(v["cred"]).value,
                                            TextColumn(v["csyllabus"]).value)
  {
    var cname := TextColumn(v["cname"]);
    var ccode := TextColumn(v["ccode"]);
    var cdesc := TextColumn(v["cdesc"]);
    var term := TextColumn(v["term"]);
    var years := TextColumn(v["years"]);
    var cred := IntColumn(v["cred"]);
    var csyllabus := TextColumn(v["csyllabus"]);
    if cname.Some? && ccode.Some? && cdesc.Some? && term.Some? && years.Some? && cred.Some? && csyllabus.Some? then
      Some(ClassRow(cname.value, ccode.value, cdesc.value, term.value, years.value, cred.value, csyllabus.value))
    else
      None
  }

  function DuplicateMessage(cname: string, ccode: string): string {
    "BAD REQUEST: Class with name+code " + cname + ccode + " already exists."
  }

  /** The checks `insertClass` makes after the duplicate lookup: the
      lengths, the code's digits, the term, the credits and the years, then
      the column types. */
  function ClassValueRules(c: Payload): (r: Guard<ClassRow>)
    requires HasClassFields(c) && NonBlankStr(c["cname"]) && NonBlankStr(c["ccode"])
    ensures r.Go? ==>
      && c["cname"] == JStr(r.value.cname) && c["ccode"] == JStr(r.value.ccode)
      && c["term"] == JStr(r.value.term) && c["years"] == JStr(r.value.years)
      && c["cred"] == JInt(r.value.cred)
      && TextColumn(c["cdesc"]) == Some(r.value.cdesc) && TextColumn(c["csyllabus"]) == Some(r.value.csyllabus)
    ensures r.Go? ==>
      && |r.value.cname| == 4 && Strip(r.value.cname) != ""
      && |r.value.ccode| == 4 && IsDigits(r.value.ccode)
      && IsValidTerm(r.value.term) && r.value.cred >= 0 && r.value.years in ValidYears
    ensures |c["cname"].s| != 4 ==> r == Stop(Msg(400, "BAD REQUEST: Class name must be 4 characters long."))
  {
    var cname := c["cname"].s;
    var ccode := c["ccode"].s;
    if |cname| != 4 then Stop(Msg(400, "BAD REQUEST: Class name must be 4 characters long."))
    else if !IsDigits(ccode) || |ccode| != 4 then Stop(Msg(400, "BAD REQUEST: Class code must be a 4-digits."))
    else ClassScheduleRules(c)
  }

  /** The term, credit and years checks, then the column types. */
  function ClassScheduleRules(c: Payload): (r: Guard<ClassRow>)
    requires HasClassFields(c)
    ensures r.Go? ==>
      && TextColumn(c["cname"]) == Some(r.value.cname) && TextColumn(c["ccode"]) == Some(r.value.ccode)
      && c["term"] == JStr(r.value.term) && c["years"] == JStr(r.value.years)
      && c["cred"] == JInt(r.value.cred)
      && TextColumn(c["cdesc"]) == Some(r.value.cdesc) && TextColumn(c["csyllabus"]) == Some(r.value.csyllabus)
    ensures r.Go? ==> IsValidTerm(r.value.term) && r.value.cred >= 0 && r.value.years in ValidYears
    ensures !c["term"].JStr? ==> r == Stop(Uncaught(AttributeException))
  {
    match TermVerdict(c["term"])
    case None => Stop(Uncaught(AttributeException))
    case Some(ok) =>
      if !ok then Stop(Msg(400, "BAD REQUEST: Invalid term value."))
      else if !CredOk(c["cred"]) then Stop(Msg(400, "BAD REQUEST: Credits must be a non-negative integer."))
      else if !ClassYearsOk(c["years"]) then Stop(Msg(400, "BAD REQUEST: Invalid years value."))
      else match ClassColumns(c)
        case None => Stop(Msg(500, "INTERNAL SERVER ERROR"))
        case Some(row) => Go(row)
  }

  /** `insertClass(c)` up to the INSERT. */
  function InsertClassGuard(cat: Catalog, c: Payload): (r: Guard<ClassRow>)
    ensures !HasClassFields(c) ==> r == Stop(Msg(400, "BAD REQUEST: MISSING VALUES"))
    ensures HasClassFields(c) && (!NonBlankStr(c["cname"]) || !NonBlankStr(c["ccode"])) ==>
      r == Stop(Msg(400, "BAD REQUEST: cname and ccode must be non-empty strings."))
    ensures r.Go? ==>
      && HasClassFields(c)
      && c["cname"] == JStr(r.value.cname) && c["ccode"] == JStr(r.value.ccode)
      && c["term"] == JStr(r.value.term) && c["years"] == JStr(r.value.years)
      && c["cred"] == JInt(r.value.cred)
      && TextColumn(c["cdesc"]) == Some(r.value.cdesc) && TextColumn(c["csyllabus"]) == Some(r.value.csyllabus)
    ensures r.Go? ==>
      && |r.value.cname| == 4 && Strip(r.value.cname) != ""
      && |r.value.ccode| == 4 && IsDigits(r.value.ccode)
      && IsValidTerm(r.value.term) && r.value.cred >= 0 && r.value.years in ValidYears
      && ClassDao.ClassByNameAndCode(cat.classes, r.value.cname, r.value.ccode).None?
  {
    if !HasClassFields(c) then Stop(Msg(400, "BAD REQUEST: MISSING VALUES"))
    else if !NonBlankStr(c["cname"]) || !NonBlankStr(c["ccode"]) then
      Stop(Msg(400, "BAD REQUEST: cname and ccode must be non-empty strings."))
    else if ClassDao.ClassByNameAndCode(cat.classes, c["cname"].s, c["ccode"].s).Some? then
      Stop(Msg(400, DuplicateMessage(c["cname"].s, c["ccode"].s)))
    else ClassValueRules(c)
  }

  /** The name+code lookup comes before the length and format checks: a
      taken pair of non-blank strings is reported as taken, whatever else
      is wrong with the request. */
  lemma DuplicateCheckedFirst(cat: Catalog, c: Payload)
    requires HasClassFields(c) && NonBlankStr(c["cname"]) && NonBlankStr(c["ccode"])
    requires ClassDao.ClassByNameAndCode(cat.classes, c["cname"].s, c["ccode"].s).Some?
    ensures InsertClassGuard(cat, c) == Stop(Msg(400, DuplicateMessage(c["cname"].s, c["ccode"].s)))
  {
  }

  /** `c.get(k, prev[k])` for the seven columns. */
  function Merged(prev: ClassRow, c: Payload): (v: Payload)
    ensures HasClassFields(v)
    ensures forall k :: k in c && k in v ==> v[k] == c[k]
  {
    map["cname" := Get(c, "cname", JStr(prev.cname)), "ccode" := Get(c, "ccode", JStr(prev.ccode)),
        "cdesc" := Get(c, "cdesc", JStr(prev.cdesc)), "term" := Get(c, "term", JStr(prev.term)),
        "years" := Get(c, "years", JStr(prev.years)), "cred" := Get(c, "cred", JInt(prev.cred)),
        "csyllabus" := Get(c, "csyllabus", JStr(prev.csyllabus))]
  }

  /** The checks `updateClass` applies to the fields the request carries,
      in order, on the merged values `v`: None when all of them pass. */
  function FieldErrors(c: Payload, v: Payload): (r: Option<Response>)
    requires HasClassFields(v)
    ensures r.None? ==>
      && ("cname" in c ==> NonBlankStr(v["cname"]) && |v["cname"].s| == 4)
      && ("ccode" in c ==> NonBlankStr(v["ccode"]) && |v["ccode"].s| == 4 && IsDigits(v["ccode"].s))
      && ("term" in c ==> v["term"].JStr? && IsValidTerm(v["term"].s))
      && ("cred" in c ==> CredOk(v["cred"]))
      && ("years" in c ==> ClassYearsOk(v["years"]))
  {
    match NameCodeErrors(c, v)
    case Some(err) => Some(err)
    case None =>
      match ScheduleErrors(c, v)
      case Some(err) => Some(err)
      case None =>
        if ("cname" in c && !NonBlankStr(v["cname"])) || ("ccode" in c && !NonBlankStr(v["ccode"])) then
          Some(Msg(400, "BAD REQUEST: cname and ccode must be non-empty strings."))
        else
          None
  }

  /** The length check of a sent name and the format check of a sent code. */
  function NameCodeErrors(c: Payload, v: Payload): (r: Option<Response>)
    requires HasClassFields(v)
    ensures r.None? ==>
      && ("cname" in c ==> PyLen(v["cname"]) == Some(4))
      && ("ccode" in c ==> v["ccode"].JStr? && |v["ccode"].s| == 4 && IsDigits(v["ccode"].s))
  {
    if "cname" in c && PyLen(v["cname"]).None? then Some(Uncaught(TypeException))
    else if "cname" in c && PyLen(v["cname"]).value != 4 then
      Some(Msg(400, "BAD REQUEST: Class name must be 4 characters long."))
    else if "ccode" in c && !v["ccode"].JStr? then Some(Uncaught(AttributeException))
    else if "ccode" in c && (!IsDigits(v["ccode"].s) || |v["ccode"].s| != 4) then
      Some(Msg(400, "BAD REQUEST: Class code must be a 4-digit string."))
    else
      None
  }

  /** The term, credit and years checks of the fields sent. */
  function ScheduleErrors(c: Payload, v: Payload): (r: Option<Response>)
    requires HasClassFields(v)
    ensures r.None? ==>
      && ("term" in c ==> v["term"].JStr? && IsValidTerm(v["term"].s))
      && ("cred" in c ==> CredOk(v["cred"]))
      && ("years" in c ==> ClassYearsOk(v["years"]))
  {
    if "term" in c && TermVerdict(v["term"]).None? then Some(Uncaught(AttributeException))
    else if "term" in c && !TermVerdict(v["term"]).value then Some(Msg(400, "BAD REQUEST: Invalid term value."))
    else if "cred" in c && !CredOk(v["cred"]) then
      Some(Msg(400, "BAD REQUEST: Credits must be a non-negative integer."))
    else if "years" in c && !ClassYearsOk(v["years"]) then Some(Msg(400, "BAD REQUEST: Invalid years value."))
    else
      None
  }

  /** `updateClass(cid, c)` up to the UPDATE: omitted fields keep their
      stored values, and only the fields the request carries are validated. */
  function UpdateClassGuard(cat: Catalog, cid: int, c: Payload): (r: Guard<ClassRow>)
    ensures cid !in cat.classes ==> r == Stop(Msg(404, "NOT FOUND"))
    ensures r.Go? ==> cid in cat.classes && FieldErrors(c, Merged(cat.classes[cid], c)).None?
                      && ClassColumns(Merged(cat.classes[cid], c)) == Some(r.value)
    ensures r.Go? ==>
      var e := ClassDao.ClassByNameAndCode(cat.classes, r.value.cname, r.value.ccode);
      e.None? || e.value.0 == cid
  {
    if cid !in cat.classes then Stop(Msg(404, "NOT FOUND"))
    else
      var v := Merged(cat.classes[cid], c);
      match FieldErrors(c, v)
      case Some(err) => Stop(err)
      case None =>
        var cname := v["cname"];
        var ccode := v["ccode"];
        assert cname.JStr? && ccode.JStr?;
        var existing := ClassDao.ClassByNameAndCode(cat.classes, cname.s, ccode.s);
        if existing.Some? && existing.value.0 != cid then
          Stop(Msg(400, DuplicateMessage(cname.s, ccode.s)))
        else match ClassColumns(v)
          case None => Stop(Msg(500, "INTERNAL SERVER ERROR"))
          case Some(row) => Go(row)
  }

  /** What a successful update stores: every omitted field keeps its stored
      value, every sent field is the validated value sent. */
  lemma UpdateStores(cat: Catalog, cid: int, c: Payload)
    requires UpdateClassGuard(cat, cid, c).Go?
    ensures var row := UpdateClassGuard(cat, cid, c).value; var prev := cat.classes[cid];
      && ("cname" !in c ==> row.cname == prev.cname)
      && ("ccode" !in c ==> row.ccode == prev.ccode)
      && ("cdesc" !in c ==> row.cdesc == prev.cdesc)
      && ("term" !in c ==> row.term == prev.term)
      && ("years" !in c ==> row.years == prev.years)
      && ("cred" !in c ==> row.cred == prev.cred)
      && ("csyllabus" !in c ==> row.csyllabus == prev.csyllabus)
    ensures var row := UpdateClassGuard(cat, cid, c).value;
      && ("cname" in c ==> c["cname"] == JStr(row.cname) && |row.cname| == 4 && Strip(row.cname) != "")
      && ("ccode" in c ==> c["ccode"] == JStr(row.ccode) && |row.ccode| == 4 && IsDigits(row.ccode))
      && ("term" in c ==> c["term"] == JStr(row.term) && IsValidTerm(row.term))
      && ("cred" in c ==> c["cred"] == JInt(row.cred) && row.cred >= 0)
      && ("years" in c ==> c["years"] == JStr(row.years) && row.years in ValidYears)
      && ("cdesc" in c ==> TextColumn(c["cdesc"]) == Some(row.cdesc))
      && ("csyllabus" in c ==> TextColumn(c["csyllabus"]) == Some(row.csyllabus))
  {
  }

  /** A request carrying only a new description rewrites only the
      description, even when the stored fields would fail today's checks. */
  lemma {:induction false} DescriptionOnlyUpdate(cat: Catalog, cid: int, d: string)
    requires cid in cat.classes && ClassDao.UniqueNameCode(cat.classes)
    requires Int4Min <= cat.classes[cid].cred <= Int4Max
    ensures UpdateClassGuard(cat, cid, map["cdesc" := JStr(d)]) == Go(cat.classes[cid].(cdesc := d))
  {
    var prev := cat.classes[cid];
    var c: Payload := map["cdesc" := JStr(d)];
    var v := Merged(prev, c);
    assert "cname" !in c && "ccode" !in c && "term" !in c && "cred" !in c && "years" !in c;
    assert FieldErrors(c, v).None?;
    assert v["cname"] == JStr(prev.cname) && v["ccode"] == JStr(prev.ccode) && v["cdesc"] == JStr(d);
    assert v["term"] == JStr(prev.term) && v["years"] == JStr(prev.years) && v["cred"] == JInt(prev.cred);
    assert v["csyllabus"] == JStr(prev.csyllabus);
    assert ClassColumns(v) == Some(prev.(cdesc := d));
    ClassDao.LookupOfUnique(cat.classes, cid);
  }


  /** The state a successful insert leaves keeps both invariants. */
  lemma {:induction false} InsertedClassKeepsInvariants(cat: Catalog, c: Payload)
    requires cat.Valid() && InsertClassGuard(cat, c).Go?
    ensures var after := cat.(classes := cat.classes[cat.nextCid := InsertClassGuard(cat, c).value], nextCid := cat.nextCid + 1);
      && (cat.Referential() ==> after.Referential())
      && (ClassDao.UniqueNameCode(cat.classes) ==> ClassDao.UniqueNameCode(after.classes))
  {
    var row := InsertClassGuard(cat, c).value;
    if ClassDao.UniqueNameCode(cat.classes) {
      ClassDao.FreshPairKeepsUnique(cat.classes, cat.nextCid, row);
    }
    if cat.Referential() {
      ClassWriteKeepsReferential(cat, cat.nextCid, row, cat.nextCid + 1);
    }
  }

  /** A successful update keeps name+code pairs unique. */
  lemma {:induction false} UpdateKeepsUnique(cat: Catalog, cid: int, c: Payload)
    requires ClassDao.UniqueNameCode(cat.classes) && UpdateClassGuard(cat, cid, c).Go?
    ensures ClassDao.UniqueNameCode(cat.classes[cid := UpdateClassGuard(cat, cid, c).value])
  {
    var row := UpdateClassGuard(cat, cid, c).value;
    var e := ClassDao.ClassByNameAndCode(cat.classes, row.cname, row.ccode);
    forall b | b in cat.classes && b != cid
      ensures cat.classes[b].cname != row.cname || cat.classes[b].ccode != row.ccode
    {
      if e.Some? {
        assert e.value.0 == cid;
      }
    }
  }

  /** `mapClass(row)` of the tuple the handler builds from the values it
      sent to the database. */
  function ClassJson(cid: int, v: Payload): (r: Json)
    requires HasClassFields(v)
    ensures r.JObj? && r.fields.Keys == {"cid", "cname", "ccode", "cdesc", "term", "years", "cred", "csyllabus"}
    ensures r.fields["cid"] == JInt(cid)
    ensures forall k :: k in v && k in r.fields && k != "cid" ==> r.fields[k] == v[k]
  {
    JObj(map["cid" := JInt(cid), "cname" := v["cname"], "ccode" := v["ccode"], "cdesc" := v["cdesc"],
             "term" := v["term"], "years" := v["years"], "cred" := v["cred"], "csyllabus" := v["csyllabus"]])
  }

  /** `insertClass(c)`: the guard chain, then one new row answered 201. */
  method InsertClass(db: Database, c: Payload) returns (resp: Response)
    requires db.Valid()
    modifies db
    ensures db.Valid()
    ensures var g := InsertClassGuard(old(db.Snapshot()), c);
      if g.Stop? then resp == g.response && db.Snapshot() == old(db.Snapshot())
      else
        && db.Snapshot() == old(db.Snapshot()).(classes := old(db.classes)[old(db.nextCid) := g.value],
                                                nextCid := old(db.nextCid) + 1)
        && resp == Response(201, ClassJson(old(db.nextCid), c))
    ensures old(db.Snapshot().Referential()) ==> db.Snapshot().Referential()
    ensures old(ClassDao.UniqueNameCode(db.classes)) ==> ClassDao.UniqueNameCode(db.classes)
  {
    var g := InsertClassGuard(db.Snapshot(), c);
    resp := CreateClass(db, g, c);
  }

  /** The end of `insertClass(c)`: a refusal is answered as it is;
      otherwise the row is inserted and the values sent are echoed with
      201. */
  method CreateClass(db: Database, g: Guard<ClassRow>, c: Payload) returns (resp: Response)
    requires db.Valid()
    requires g.Go? ==> HasClassFields(c) && ClassDao.ClassByNameAndCode(db.classes, g.value.cname, g.value.ccode).None?
    modifies db
    ensures db.Valid()
    ensures g.Stop? ==> resp == g.response && db.Snapshot() == old(db.Snapshot())
    ensures g.Go? ==>
      && db.Snapshot() == old(db.Snapshot()).(classes := old(db.classes)[old(db.nextCid) := g.value],
                                              nextCid := old(db.nextCid) + 1)
      && resp == Response(201, ClassJson(old(db.nextCid), c))
    ensures old(db.Snapshot().Referential()) ==> db.Snapshot().Referential()
    ensures old(ClassDao.UniqueNameCode(db.classes)) ==> ClassDao.UniqueNameCode(db.classes)
  {
    if g.Stop? {
      return g.response;
    }
    var cid := ClassDao.InsertClass(db, g.value);
    resp := Response(201, ClassJson(cid, c));
  }


  /** `updateClass(cid, c)`: the merge-and-validate chain, then row `cid`
      overwritten and answered 200 with the merged values. */
  method UpdateClass(db: Database, cid: nat, c: Payload) returns (resp: Response)
    requires db.Valid()
    modifies db
    ensures db.Valid()
    ensures var g := UpdateClassGuard(old(db.Snapshot()), cid, c);
      if g.Stop? then resp == g.response && db.Snapshot() == old(db.Snapshot())
      else
        && db.Snapshot() == old(db.Snapshot()).(classes := old(db.classes)[cid := g.value])
        && resp == Response(200, ClassJson(cid, Merged(old(db.classes)[cid], c)))
    ensures old(db.Snapshot().Referential()) ==> db.Snapshot().Referential()
    ensures old(ClassDao.UniqueNameCode(db.classes)) ==> ClassDao.UniqueNameCode(db.classes)
  {
    var g := UpdateClassGuard(db.Snapshot(), cid, c);
    if g.Stop? {
      return g.response;
    }
    if ClassDao.UniqueNameCode(db.classes) {
      UpdateKeepsUnique(db.Snapshot(), cid, c);
    }
    var merged := Merged(db.classes[cid], c);
    var updated := ClassDao.UpdateClass(db, cid, g.value);
    resp := Response(200, ClassJson(cid, merged));
  }

  /** `deleteClass(cid)`: the DAO's -1 and -2 become 404 and 409, a deleted
      id is echoed with 204. */
  method DeleteClass(db: Database, cid: nat) returns (resp: Response)
    requires db.Valid()
    modifies db
    ensures db.Valid()
    ensures ClassDao.SectionUses(old(db.sections), cid) || ClassDao.RequisiteUses(old(db.requisites), cid) ==>
      resp == Msg(409, "CONFLICT: CLASS IS REFERENCED BY A SECTION/REQUISITE") && db.Snapshot() == old(db.Snapshot())
    ensures !ClassDao.SectionUses(old(db.sections), cid) && !ClassDao.RequisiteUses(old(db.requisites), cid) ==>
      if cid in old(db.classes) then
        resp == Response(204, JInt(cid)) && db.Snapshot() == old(db.Snapshot()).(classes := old(db.classes) - {cid})
      else
        resp == Msg(404, "NOT FOUND") && db.Snapshot() == old(db.Snapshot())
    ensures old(db.Snapshot().Referential()) ==> db.Snapshot().Referential()
    ensures old(ClassDao.UniqueNameCode(db.classes)) ==> ClassDao.UniqueNameCode(db.classes)
  {
    ghost var before := db.classes;
    var deleted := ClassDao.DeleteClass(db, cid);
    assert db.classes == before || db.classes == before - {cid};
    if deleted == -1 {
      return Msg(404, "NOT FOUND");
    } else if deleted == -2 {
      return Msg(409, "CONFLICT: CLASS IS REFERENCED BY A SECTION/REQUISITE");
    }
    resp := Response(204, JInt(deleted));
  }
}
