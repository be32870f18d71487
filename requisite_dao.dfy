/** The requisite table's data-access object. A row says that class
    `classid` requires class `reqid`, as a prerequisite when `prereq` holds
    and as a corequisite otherwise; the table is keyed by the pair. */
module RequisiteDao {
  import opened Common
  import opened Json
  import opened Sql
  import opened Store

  function PairSet(requisites: map<(int, int), bool>): set<(int, int)> {
    requisites.Keys
  }

  /** `getAllRequisites()`: every row, ordered by classid (rows of one class
      by reqid, one of the orders the query allows). */
  function GetAllRequisites(requisites: map<(int, int), bool>): (r: seq<(int, int, bool)>)
    ensures forall i, j :: 0 <= i < j < |r| ==> r[i].0 <= r[j].0
    ensures forall a, b, p :: (a, b, p) in r <==> (a, b) in requisites && requisites[(a, b)] == p
    ensures |r| == |requisites|
  {
    var pairs := SortedPairs(PairSet(requisites));
    assert |PairSet(requisites)| == |requisites|;
    PairRowsMembers(requisites, pairs);
    PairRows(requisites, pairs)
  }

  /** The rows of the listed pairs, in the order of the list. */
  function PairRows(requisites: map<(int, int), bool>, pairs: seq<(int, int)>): (r: seq<(int, int, bool)>)
    requires forall i :: 0 <= i < |pairs| ==> pairs[i] in requisites
    ensures |r| == |pairs|
    ensures forall i :: 0 <= i < |r| ==> r[i] == (pairs[i].0, pairs[i].1, requisites[pairs[i]])
  {
    if pairs == [] then [] else [(pairs[0].0, pairs[0].1, requisites[pairs[0]])] + PairRows(requisites, pairs[1..])
  }

  lemma PairRowsMembers(requisites: map<(int, int), bool>, pairs: seq<(int, int)>)
    requires forall i :: 0 <= i < |pairs| ==> pairs[i] in requisites
    requires forall q :: q in requisites ==> q in pairs
    ensures forall a, b, p :: (a, b, p) in PairRows(requisites, pairs) <==> (a, b) in requisites && requisites[(a, b)] == p
  {
    var r := PairRows(requisites, pairs);
    forall a, b, p | (a, b, p) in r ensures (a, b) in requisites && requisites[(a, b)] == p {
      var i :| 0 <= i < |r| && r[i] == (a, b, p);
      assert pairs[i] == (a, b);
    }
    forall a, b, p | (a, b) in requisites && requisites[(a, b)] == p ensures (a, b, p) in r {
      var i :| 0 <= i < |pairs| && pairs[i] == (a, b);
      assert r[i] == (a, b, p);
    }
  }

  /** `pairExists(classid, reqid)`: `SELECT 1 FROM requisite WHERE classid
      = %s AND reqid = %s` with the client's two values. */
  function PairExists(requisites: map<(int, int), bool>, classid: Json, reqid: Json): (r: Fetch<(int, int)>)
    ensures r.DbError? <==> IntParam(classid).Invalid? || IntParam(reqid).Invalid?
    ensures r.Row? <==> IntParam(classid).Value? && IntParam(reqid).Value?
                        && (IntParam(classid).v, IntParam(reqid).v) in requisites
    ensures r.Row? ==> r.v == (IntParam(classid).v, IntParam(reqid).v)
  {
    match (IntParam(classid), IntParam(reqid))
    case (Invalid, _) => DbError
    case (_, Invalid) => DbError
    case (Value(a), Value(b)) => if (a, b) in requisites then Row((a, b)) else NoRow
    case _ => NoRow
  }

  /** `twoCycleExist(classid, reqid)` runs the same query on the swapped
      arguments: a row says `reqid` already requires `classid`. */
  function TwoCycleExist(requisites: map<(int, int), bool>, classid: Json, reqid: Json): (r: Fetch<(int, int)>)
    ensures r.Row? <==> IntParam(classid).Value? && IntParam(reqid).Value?
                        && (IntParam(reqid).v, IntParam(classid).v) in requisites
    ensures r.DbError? <==> IntParam(classid).Invalid? || IntParam(reqid).Invalid?
  {
    PairExists(requisites, reqid, classid)
  }

  /** No class requires itself. */
  predicate NoSelfLoop(requisites: map<(int, int), bool>) {
    forall p :: p in requisites ==> p.0 != p.1
  }

  /** No two classes require each other. */
  predicate NoTwoCycle(requisites: map<(int, int), bool>) {
    forall p :: p in requisites ==> (p.1, p.0) !in requisites
  }

  /** `insertRequisite`: adds the row and hands it back. */
  method InsertRequisite(db: Database, classid: int, reqid: int, prereq: bool) returns (r: (int, int, bool))
    modifies db
    ensures r == (classid, reqid, prereq)
    ensures db.Snapshot() == old(db.Snapshot()).(requisites := old(db.requisites)[(classid, reqid) := prereq])
    ensures old(db.Snapshot().Referential()) && classid in db.classes && reqid in db.classes ==>
      db.Snapshot().Referential()
  {
    db.requisites := db.requisites[(classid, reqid) := prereq];
    r := (classid, reqid, prereq);
  }

  /** `deleteRequisite`: removes the pair and returns its classid, or None
      when there was no such row. */
  method DeleteRequisite(db: Database, classid: int, reqid: int) returns (r: Option<int>)
    modifies db
    ensures (classid, reqid) in old(db.requisites) ==>
      r == Some(classid) && db.Snapshot() == old(db.Snapshot()).(requisites := old(db.requisites) - {(classid, reqid)})
    ensures (classid, reqid) !in old(db.requisites) ==> r.None? && db.Snapshot() == old(db.Snapshot())
    ensures old(db.Snapshot().Referential()) ==> db.Snapshot().Referential()
    ensures old(NoSelfLoop(db.requisites)) ==> NoSelfLoop(db.requisites)
    ensures old(NoTwoCycle(db.requisites)) ==> NoTwoCycle(db.requisites)
  {
    if (classid, reqid) !in db.requisites {
      return None;
    }
    db.requisites := db.requisites - {(classid, reqid)};
    r := Some(classid);
  }
}
