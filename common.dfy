/** Small building blocks shared by every module: an optional value, and the
    least element of a finite set of ids, used wherever a query's `fetchone()`
    picks one row out of several that satisfy its WHERE clause. */
module Common {

  datatype Option<+T> = None | Some(value: T)

  /** A finite, non-empty set of integers has a least element. */
  lemma {:induction false} MinExists(s: set<int>)
    requires exists k :: k in s
    ensures exists k :: k in s && forall j :: j in s ==> k <= j
    decreases |s|
  {
    var x :| x in s;
    if exists y :: y in s && y < x {
      var y :| y in s && y < x;
      var rest := s - {x};
      assert y in rest;
      MinExists(rest);
      var m :| m in rest && forall j :: j in rest ==> m <= j;
      assert m <= y;
      assert forall j :: j in s ==> j == x || j in rest;
    } else {
      assert forall j :: j in s ==> x <= j;
    }
  }

  /** The least element of a non-empty set of ids. */
  function Least(s: set<int>): (r: int)
    requires exists k :: k in s
    ensures r in s
    ensures forall j :: j in s ==> r <= j
  {
    MinExists(s);
    var k :| k in s && forall j :: j in s ==> k <= j; k
  }

  /** The elements of a finite set of ids in ascending order, as an
      `ORDER BY id` clause lists them. */
  function SortedIds(s: set<int>): (r: seq<int>)
    ensures forall i, j :: 0 <= i < j < |r| ==> r[i] < r[j]
    ensures forall k :: k in s <==> k in r
    ensures |r| == |s|
    decreases |s|
  {
    if exists k :: k in s then
      var k := Least(s);
      var rest := SortedIds(s - {k});
      PrependLeast(s, k, rest);
      [k] + rest
    else
      []
  }

  lemma PrependLeast(s: set<int>, k: int, rest: seq<int>)
    requires k in s && forall j :: j in s ==> k <= j
    requires forall i, j :: 0 <= i < j < |rest| ==> rest[i] < rest[j]
    requires forall j :: j in s - {k} <==> j in rest
    ensures forall i, j :: 0 <= i < j < |[k] + rest| ==> ([k] + rest)[i] < ([k] + rest)[j]
    ensures forall j :: j in s <==> j in [k] + rest
  {
    var r := [k] + rest;
    forall i, j | 0 <= i < j < |r| ensures r[i] < r[j] {
      assert r[j] == rest[j - 1] && r[j] in rest;
      if i > 0 {
        assert r[i] == rest[i - 1];
      }
    }
  }

  /** The entries of `m` listed in the order of `ids`. */
  function EntriesAt<V>(m: map<int, V>, ids: seq<int>): (r: seq<(int, V)>)
    requires forall i :: 0 <= i < |ids| ==> ids[i] in m
    ensures |r| == |ids|
    ensures forall i :: 0 <= i < |r| ==> r[i] == (ids[i], m[ids[i]])
  {
    if ids == [] then [] else [(ids[0], m[ids[0]])] + EntriesAt(m, ids[1..])
  }

  /** The rows of a table in ascending order of id, as `SELECT * ... ORDER BY
      id` returns them. */
  function SortedRows<V(!new)>(m: map<int, V>): (r: seq<(int, V)>)
    ensures forall i, j :: 0 <= i < j < |r| ==> r[i].0 < r[j].0
    ensures forall k, v :: (k, v) in r <==> k in m && m[k] == v
    ensures |r| == |m|
  {
    var ids := SortedIds(m.Keys);
    var r := EntriesAt(m, ids);
    EntriesAtMembers(m, ids);
    assert |m.Keys| == |m|;
    r
  }

  lemma {:induction false} EntriesAtMembers<V(!new)>(m: map<int, V>, ids: seq<int>)
    requires forall i :: 0 <= i < |ids| ==> ids[i] in m
    requires forall k :: k in m ==> k in ids
    ensures forall k, v :: (k, v) in EntriesAt(m, ids) <==> k in m && m[k] == v
  {
    var r := EntriesAt(m, ids);
    forall k, v | (k, v) in r ensures k in m && m[k] == v {
      var i :| 0 <= i < |r| && r[i] == (k, v);
    }
    forall k | k in m ensures (k, m[k]) in r {
      var i :| 0 <= i < |ids| && ids[i] == k;
      assert r[i] == (k, m[k]);
    }
  }

  /** Pairs ordered by their first component, ties broken by the second. */
  predicate PairBefore(a: (int, int), b: (int, int)) {
    a.0 < b.0 || (a.0 == b.0 && a.1 < b.1)
  }

  function Firsts(s: set<(int, int)>): set<int> {
    set p | p in s :: p.0
  }

  function SecondsOf(s: set<(int, int)>, a: int): set<int> {
    set p | p in s && p.0 == a :: p.1
  }

  lemma FirstsNonEmpty(s: set<(int, int)>)
    requires exists p :: p in s
    ensures exists k :: k in Firsts(s)
    ensures forall k :: k in Firsts(s) ==> exists k2 :: k2 in SecondsOf(s, k)
  {
    var p :| p in s;
    var k0: int := p.0;
    InFirsts(s, p);
    assert k0 in Firsts(s);
    forall k | k in Firsts(s) ensures exists k2 :: k2 in SecondsOf(s, k) {
      var q :| q in s && q.0 == k;
      var k2: int := q.1;
      InSecondsOf(s, q);
      assert k2 in SecondsOf(s, k);
    }
  }

  lemma InFirsts(s: set<(int, int)>, p: (int, int))
    requires p in s
    ensures p.0 in Firsts(s)
  {
  }

  lemma InSecondsOf(s: set<(int, int)>, p: (int, int))
    requires p in s
    ensures p.1 in SecondsOf(s, p.0)
  {
  }

  /** The least pair of a non-empty set under `PairBefore`. */
  function LeastPair(s: set<(int, int)>): (r: (int, int))
    requires exists p :: p in s
    ensures r in s
    ensures forall p :: p in s && p != r ==> PairBefore(r, p)
  {
    FirstsNonEmpty(s);
    var a := Least(Firsts(s));
    var b := Least(SecondsOf(s, a));
    assert forall p :: p in s ==> p.0 in Firsts(s);
    assert forall p :: p in s && p.0 == a ==> p.1 in SecondsOf(s, a);
    (a, b)
  }

  /** The elements of a finite set of pairs in ascending `PairBefore` order. */
  function SortedPairs(s: set<(int, int)>): (r: seq<(int, int)>)
    ensures forall i, j :: 0 <= i < j < |r| ==> PairBefore(r[i], r[j])
    ensures forall p :: p in s <==> p in r
    ensures |r| == |s|
    decreases |s|
  {
    if exists p :: p in s then
      var p := LeastPair(s);
      var rest := SortedPairs(s - {p});
      assert forall q :: q in rest ==> PairBefore(p, q);
      [p] + rest
    else
      []
  }
}
