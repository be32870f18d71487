/** The requisite endpoints: the guard chain in front of INSERT (foreign
    keys, no self-requisite, no duplicate, no direct two-cycle) and DELETE. */
module RequisiteHandler {
  import opened Common
  import opened PyText
  import opened Json
  import opened Http
  import opened Sql
  import opened Store
  import RequisiteDao

  predicate HasRequisiteFields(d: Payload) {
    "classid" in d && "reqid" in d && "prereq" in d
  }

  /** `mapRequisite(row)` */
  function RequisiteJson(row: (int, int, bool)): (r: Json)
    ensures r.JObj? && r.fields.Keys == {"classid", "reqid", "prereq"}
    ensures r.fields["classid"] == JInt(row.0) && r.fields["reqid"] == JInt(row.1) && r.fields["prereq"] == JBool(row.2)
  {
    JObj(map["classid" := JInt(row.0), "reqid" := JInt(row.1), "prereq" := JBool(row.2)])
  }

  /** The two `classExists` checks, `classid` first: on success the ids the
      database compared. */
  function ClassKeys(c: Catalog, d: Payload): (r: Guard<(int, int)>)
    requires HasRequisiteFields(d)
    ensures r.Go? <==> IdFetch(c.classes, d["classid"]).Row? && IdFetch(c.classes, d["reqid"]).Row?
    ensures r.Go? ==> r.value == (IntParam(d["classid"]).v, IntParam(d["reqid"]).v)
                      && r.value.0 in c.classes && r.value.1 in c.classes
    ensures IdFetch(c.classes, d["classid"]).NoRow? ==> r == Stop(Msg(404, "NOT FOUND: classid does not exist"))
    ensures IdFetch(c.classes, d["classid"]).Row? && IdFetch(c.classes, d["reqid"]).NoRow? ==>
      r == Stop(Msg(404, "NOT FOUND: reqid does not exist"))
  {
    match IdFetch(c.classes, d["classid"])
    case DbError => Stop(Uncaught(DbException))
    case NoRow => Stop(Msg(404, "NOT FOUND: classid does not exist"))
    case Row(a) =>
      match IdFetch(c.classes, d["reqid"])
      case DbError => Stop(Uncaught(DbException))
      case NoRow => Stop(Msg(404, "NOT FOUND: reqid does not exist"))
      case Row(b) => Go((a, b))
  }

  /** The rest of `insertRequisite` once both classes exist: the self-check
      (whose test is passed in as `same`), the duplicate pair, the mirrored
      pair, then the row the INSERT stores. */
  function PairRules(c: Catalog, d: Payload, ids: (int, int), same: bool): (r: Guard<(int, int, bool)>)
    requires HasRequisiteFields(d)
    requires IntParam(d["classid"]) == Value(ids.0) && IntParam(d["reqid"]) == Value(ids.1)
    ensures same ==> r == Stop(Msg(409, "CONFLICT: class cannot be its own prerequisite"))
    ensures !same && ids in c.requisites ==> r == Stop(Msg(409, "CONFLICT: requisite already exists"))
    ensures !same && ids !in c.requisites && (ids.1, ids.0) in c.requisites ==>
      r == Stop(Msg(409, "CONFLICT: simple cycle detected"))
    ensures r.Go? ==>
      && !same && ids !in c.requisites && (ids.1, ids.0) !in c.requisites
      && r.value.0 == ids.0 && r.value.1 == ids.1 && BoolColumn(d["prereq"]) == Some(r.value.2)
  {
    if same then Stop(Msg(409, "CONFLICT: class cannot be its own prerequisite"))
    else if RequisiteDao.PairExists(c.requisites, d["classid"], d["reqid"]).Row? then
      Stop(Msg(409, "CONFLICT: requisite already exists"))
    else if RequisiteDao.TwoCycleExist(c.requisites, d["classid"], d["reqid"]).Row? then
      Stop(Msg(409, "CONFLICT: simple cycle detected"))
    else
      match (IntColumn(d["classid"]), IntColumn(d["reqid"]), BoolColumn(d["prereq"]))
      case (Some(a), Some(b), Some(p)) => ColumnOfParam(d["classid"]); ColumnOfParam(d["reqid"]); Go((a, b, p))
      case _ => Stop(Uncaught(DbException))
  }

  /** Written to an integer column, a key value stores the id it matched. */
  lemma ColumnOfParam(j: Json)
    requires IntParam(j).Value? && IntColumn(j).Some?
    ensures IntColumn(j).value == IntParam(j).v
  {
  }

  /** The guard chain of `insertRequisite` as written: the self-check
      compares the two JSON values with Python's `==`. */
  function InsertGuardAsWritten(c: Catalog, d: Payload): (r: Guard<(int, int, bool)>)
    ensures !HasRequisiteFields(d) ==> r == Stop(Msg(400, "BAD REQUEST: MISSING VALUES"))
    ensures HasRequisiteFields(d) && ClassKeys(c, d).Stop? ==> r == Stop(ClassKeys(c, d).response)
    ensures r.Go? ==>
      && HasRequisiteFields(d) && ClassKeys(c, d).Go? && !PyEq(d["classid"], d["reqid"])
      && r.value.0 in c.classes && r.value.1 in c.classes
      && (r.value.0, r.value.1) !in c.requisites && (r.value.1, r.value.0) !in c.requisites
      && r.value.0 == IntParam(d["classid"]).v && r.value.1 == IntParam(d["reqid"]).v
      && BoolColumn(d["prereq"]) == Some(r.value.2)
  {
    if !HasRequisiteFields(d) then Stop(Msg(400, "BAD REQUEST: MISSING VALUES"))
    else match ClassKeys(c, d)
      case Stop(resp) => Stop(resp)
      case Go(ids) => PairRules(c, d, ids, PyEq(d["classid"], d["reqid"]))
  }

  /** A request naming class `k` as its own prerequisite, once as text and
      once as a number. */
  function MixedRequest(k: int): Payload {
    map["classid" := JStr(IntToString(k)), "reqid" := JInt(k), "prereq" := JBool(true)]
  }

  /** Both spellings of `k` match class `k`, though Python tells the two
      JSON values apart. */
  lemma {:induction false} MixedRequestKeys(c: Catalog, k: int)
    requires k in c.classes && Int4Min <= k <= Int4Max
    ensures var d := MixedRequest(k);
      && HasRequisiteFields(d) && BoolColumn(d["prereq"]) == Some(true)
      && IntParam(d["classid"]) == Value(k) && IntParam(d["reqid"]) == Value(k)
      && ClassKeys(c, d) == Go((k, k)) && !PyEq(d["classid"], d["reqid"])
  {
    var d := MixedRequest(k);
    assert d["classid"] == JStr(IntToString(k)) && d["reqid"] == JInt(k) && d["prereq"] == JBool(true);
    PgIntLiteralOfRendering(k);
    assert IntParam(d["classid"]) == Value(k);
  }

  /** The self-check as written lets a class through as its own
      prerequisite when its id is sent once as text and once as a number:
      the two JSON values differ, the ids the database matches do not. */
  lemma {:induction false} SelfLoopAsWritten(c: Catalog, k: int)
    requires k in c.classes && Int4Min <= k <= Int4Max && (k, k) !in c.requisites
    ensures InsertGuardAsWritten(c, MixedRequest(k)) == Go((k, k, true))
  {
    MixedRequestKeys(c, k);
    assert PairRules(c, MixedRequest(k), (k, k), false) == Go((k, k, true));
  }

  /** The self-check as intended: the two ids the database matched. */
  function InsertRequisiteGuard(c: Catalog, d: Payload): (r: Guard<(int, int, bool)>)
    ensures !HasRequisiteFields(d) ==> r == Stop(Msg(400, "BAD REQUEST: MISSING VALUES"))
    ensures HasRequisiteFields(d) && ClassKeys(c, d).Stop? ==> r == Stop(ClassKeys(c, d).response)
    ensures r.Go? ==>
      && HasRequisiteFields(d) && ClassKeys(c, d).Go?
      && r.value.0 in c.classes && r.value.1 in c.classes && r.value.0 != r.value.1
      && (r.value.0, r.value.1) !in c.requisites && (r.value.1, r.value.0) !in c.requisites
      && r.value.0 == IntParam(d["classid"]).v && r.value.1 == IntParam(d["reqid"]).v
      && BoolColumn(d["prereq"]) == Some(r.value.2)
  {
    if !HasRequisiteFields(d) then Stop(Msg(400, "BAD REQUEST: MISSING VALUES"))
    else match ClassKeys(c, d)
      case Stop(resp) => Stop(resp)
      case Go(ids) => PairRules(c, d, ids, ids.0 == ids.1)
  }

  /** The same request is refused by the corrected guard. */
  lemma {:induction false} SelfLoopRefused(c: Catalog, k: int)
    requires k in c.classes && Int4Min <= k <= Int4Max
    ensures InsertRequisiteGuard(c, MixedRequest(k)) == Stop(Msg(409, "CONFLICT: class cannot be its own prerequisite"))
  {
    MixedRequestKeys(c, k);
  }

  /** Where Python's `==` already says the values differ or agree in the
      same way as the ids, the two guards give the same answer. */
  lemma {:induction false} GuardsAgreeOnIntegers(c: Catalog, d: Payload)
    requires HasRequisiteFields(d) && d["classid"].JInt? && d["reqid"].JInt?
    ensures InsertGuardAsWritten(c, d) == InsertRequisiteGuard(c, d)
  {
    if ClassKeys(c, d).Go? {
      assert PyEq(d["classid"], d["reqid"]) <==> d["classid"].i == d["reqid"].i;
    }
  }

  /** As written, only ids sent as values of different JSON types can make
      the accepted pair a self-requisite: two numbers that name the same
      class are equal to Python as well. */
  lemma {:induction false} SelfLoopNeedsMixedIds(c: Catalog, d: Payload)
    requires InsertGuardAsWritten(c, d).Go?
    requires d["classid"].JInt? && d["reqid"].JInt?
    ensures InsertGuardAsWritten(c, d).value.0 != InsertGuardAsWritten(c, d).value.1
  {
    GuardsAgreeOnIntegers(c, d);
  }

  /** A requisite the as-written guard lets through keeps the table free of
      self-loops and two-cycles whenever its two ids differ; both its
      classes exist in every case. */
  lemma {:induction false} AsWrittenKeepsShape(c: Catalog, d: Payload)
    requires InsertGuardAsWritten(c, d).Go?
    ensures var row := InsertGuardAsWritten(c, d).value;
      var after := c.requisites[(row.0, row.1) := row.2];
      && (c.Referential() ==> c.(requisites := after).Referential())
      && (RequisiteDao.NoSelfLoop(c.requisites) && RequisiteDao.NoTwoCycle(c.requisites) && row.0 != row.1 ==>
            RequisiteDao.NoSelfLoop(after) && RequisiteDao.NoTwoCycle(after))
  {
    var row := InsertGuardAsWritten(c, d).value;
    var after := c.requisites[(row.0, row.1) := row.2];
    if RequisiteDao.NoSelfLoop(c.requisites) && RequisiteDao.NoTwoCycle(c.requisites) && row.0 != row.1 {
      FreshPairKeepsShape(c, row.0, row.1, row.2);
    }
    if c.Referential() {
      assert forall q :: q in after ==> q in c.requisites || q == (row.0, row.1);
    }
  }

  /** A requisite the corrected guard lets through keeps the table free of self-loops
      and two-cycles, and both its classes exist. */
  lemma {:induction false} InsertGuardKeepsShape(c: Catalog, d: Payload)
    requires RequisiteDao.NoSelfLoop(c.requisites) && RequisiteDao.NoTwoCycle(c.requisites)
    requires InsertRequisiteGuard(c, d).Go?
    ensures var row := InsertRequisiteGuard(c, d).value;
      var after := c.requisites[(row.0, row.1) := row.2];
      && RequisiteDao.NoSelfLoop(after) && RequisiteDao.NoTwoCycle(after)
      && |after| == |c.requisites| + 1
      && (c.Referential() ==> c.(requisites := after).Referential())
  {
    var row := InsertRequisiteGuard(c, d).value;
    FreshPairKeepsShape(c, row.0, row.1, row.2);
  }

  /** A pair of two distinct existing classes that is stored in neither
      direction keeps the table's shape. */
  lemma {:induction false} FreshPairKeepsShape(c: Catalog, a: int, b: int, p: bool)
    requires RequisiteDao.NoSelfLoop(c.requisites) && RequisiteDao.NoTwoCycle(c.requisites)
    requires a in c.classes && b in c.classes && a != b
    requires (a, b) !in c.requisites && (b, a) !in c.requisites
    ensures var after := c.requisites[(a, b) := p];
      && RequisiteDao.NoSelfLoop(after) && RequisiteDao.NoTwoCycle(after)
      && |after| == |c.requisites| + 1
      && (c.Referential() ==> c.(requisites := after).Referential())
  {
    var after := c.requisites[(a, b) := p];
    assert after.Keys == c.requisites.Keys + {(a, b)};
    forall q | q in after ensures (q.1, q.0) !in after {
      if q == (a, b) {
        assert (b, a) != (a, b);
      } else {
        assert q in c.requisites;
      }
    }
  }

  /** Some class requires itself through two others. */
  ghost predicate HasThreeCycle(requisites: map<(int, int), bool>) {
    exists a, b, k :: (a, b) in requisites && (b, k) in requisites && (k, a) in requisites
  }

  /** Longer cycles are not looked for: with 1 requiring 2 and 2 requiring
      3, the guard accepts 3 requiring 1. */
  lemma ThreeCycleAccepted()
    ensures var cls := ClassRow("", "", "", "", "", 3, "");
      var c := Catalog(map[1 := cls, 2 := cls, 3 := cls], map[], map[], map[],
                       map[(1, 2) := true, (2, 3) := true], map[], 4, 1, 1, 1, 1);
      var d := map["classid" := JInt(3), "reqid" := JInt(1), "prereq" := JBool(true)];
      && InsertRequisiteGuard(c, d) == Go((3, 1, true))
      && HasThreeCycle(c.requisites[(3, 1) := true])
  {
    var cls := ClassRow("", "", "", "", "", 3, "");
    var c := Catalog(map[1 := cls, 2 := cls, 3 := cls], map[], map[], map[],
                     map[(1, 2) := true, (2, 3) := true], map[], 4, 1, 1, 1, 1);
    var d := map["classid" := JInt(3), "reqid" := JInt(1), "prereq" := JBool(true)];
    assert d["classid"] == JInt(3) && d["reqid"] == JInt(1) && d["prereq"] == JBool(true);
    assert ClassKeys(c, d) == Go((3, 1));
    var after := c.requisites[(3, 1) := true];
    assert (1, 2) in after && (2, 3) in after && (3, 1) in after;
  }

  /** `insertRequisite(data)` as written: the guard chain, then one new row
      answered 201. The table keeps its shape when the two ids differ,
      which two JSON numbers always do. */
  method InsertRequisite(db: Database, d: Payload) returns (resp: Response)
    modifies db
    ensures var g := InsertGuardAsWritten(old(db.Snapshot()), d);
      if g.Stop? then resp == g.response && db.Snapshot() == old(db.Snapshot())
      else
        && db.Snapshot() == old(db.Snapshot()).(requisites := old(db.requisites)[(g.value.0, g.value.1) := g.value.2])
        && resp == Response(201, RequisiteJson(g.value))
    ensures old(db.Snapshot().Referential()) ==> db.Snapshot().Referential()
    ensures var g := InsertGuardAsWritten(old(db.Snapshot()), d);
      (old(RequisiteDao.NoSelfLoop(db.requisites) && RequisiteDao.NoTwoCycle(db.requisites))
       && (g.Go? ==> g.value.0 != g.value.1))
      ==> RequisiteDao.NoSelfLoop(db.requisites) && RequisiteDao.NoTwoCycle(db.requisites)
    ensures (old(RequisiteDao.NoSelfLoop(db.requisites) && RequisiteDao.NoTwoCycle(db.requisites))
             && "classid" in d && d["classid"].JInt? && "reqid" in d && d["reqid"].JInt?)
      ==> RequisiteDao.NoSelfLoop(db.requisites) && RequisiteDao.NoTwoCycle(db.requisites)
  {
    var g := InsertGuardAsWritten(db.Snapshot(), d);
    if g.Stop? {
      return g.response;
    }
    AsWrittenKeepsShape(db.Snapshot(), d);
    if d["classid"].JInt? && d["reqid"].JInt? {
      SelfLoopNeedsMixedIds(db.Snapshot(), d);
    }
    var row := RequisiteDao.InsertRequisite(db, g.value.0, g.value.1, g.value.2);
    resp := Response(201, RequisiteJson(row));
  }

  /** `insertRequisite(data)` with the self-check corrected: the guard
      chain, then one new row answered 201. */
  method InsertRequisiteCorrected(db: Database, d: Payload) returns (resp: Response)
    modifies db
    ensures var g := InsertRequisiteGuard(old(db.Snapshot()), d);
      if g.Stop? then resp == g.response && db.Snapshot() == old(db.Snapshot())
      else
        && db.Snapshot() == old(db.Snapshot()).(requisites := old(db.requisites)[(g.value.0, g.value.1) := g.value.2])
        && resp == Response(201, RequisiteJson(g.value))
    ensures old(db.Snapshot().Referential()) ==> db.Snapshot().Referential()
    ensures old(RequisiteDao.NoSelfLoop(db.requisites) && RequisiteDao.NoTwoCycle(db.requisites)) ==>
      RequisiteDao.NoSelfLoop(db.requisites) && RequisiteDao.NoTwoCycle(db.requisites)
  {
    var g := InsertRequisiteGuard(db.Snapshot(), d);
    if g.Stop? {
      return g.response;
    }
    if RequisiteDao.NoSelfLoop(db.requisites) && RequisiteDao.NoTwoCycle(db.requisites) {
      InsertGuardKeepsShape(db.Snapshot(), d);
    }
    var row := RequisiteDao.InsertRequisite(db, g.value.0, g.value.1, g.value.2);
    resp := Response(201, RequisiteJson(row));
  }

  /** `deleteRequisite(classid, reqid)`: 404 for an absent class (classid
      first) or an absent pair, otherwise the pair is removed and 204
      answered. */
  method DeleteRequisite(db: Database, classid: nat, reqid: nat) returns (resp: Response)
    modifies db
    ensures classid !in old(db.classes) ==>
      resp == Msg(404, "NOT FOUND: classid does not exist") && db.Snapshot() == old(db.Snapshot())
    ensures classid in old(db.classes) && reqid !in old(db.classes) ==>
      resp == Msg(404, "NOT FOUND: reqid does not exist") && db.Snapshot() == old(db.Snapshot())
    ensures classid in old(db.classes) && reqid in old(db.classes) && (classid, reqid) !in old(db.requisites) ==>
      resp == Msg(404, "NOT FOUND: requisite does not exist") && db.Snapshot() == old(db.Snapshot())
    ensures classid in old(db.classes) && reqid in old(db.classes) && (classid, reqid) in old(db.requisites) ==>
      && resp == Response(204, JStr(""))
      && db.Snapshot() == old(db.Snapshot()).(requisites := old(db.requisites) - {(classid, reqid)})
    ensures old(db.Snapshot().Referential()) ==> db.Snapshot().Referential()
    ensures old(RequisiteDao.NoSelfLoop(db.requisites)) ==> RequisiteDao.NoSelfLoop(db.requisites)
    ensures old(RequisiteDao.NoTwoCycle(db.requisites)) ==> RequisiteDao.NoTwoCycle(db.requisites)
  {
    if IdFetch(db.classes, JInt(classid)).NoRow? {
      return Msg(404, "NOT FOUND: classid does not exist");
    }
    if IdFetch(db.classes, JInt(reqid)).NoRow? {
      return Msg(404, "NOT FOUND: reqid does not exist");
    }
    if RequisiteDao.PairExists(db.requisites, JInt(classid), JInt(reqid)).NoRow? {
      return Msg(404, "NOT FOUND: requisite does not exist");
    }
    var deleted := RequisiteDao.DeleteRequisite(db, classid, reqid);
    resp := Response(204, JStr(""));
  }
}
