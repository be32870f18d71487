/** The JSON values a request body decodes to, and the few pieces of Python's
    dynamic typing the handlers apply to them: `isinstance(x, int)`, `len`,
    `==`, hashing for set membership, and `int(x)` / `str(x)`. */
module Json {
  import opened Common
  import opened PyText

  /** A decoded JSON value. Numbers are integers: bodies carrying floats are
      not part of this model. */
  datatype Json =
    | JNull
    | JBool(b: bool)
    | JInt(i: int)
    | JStr(s: string)
    | JArr(items: seq<Json>)
    | JObj(fields: map<string, Json>)

  /** A request body: `request.get_json()` of a JSON object. */
  type Payload = map<string, Json>

  /** `all(k in p for k in keys)` */
  predicate HasAll(p: Payload, keys: seq<string>) {
    forall i :: 0 <= i < |keys| ==> keys[i] in p
  }

  /** The first of `keys` that `p` lacks, in the order the keys are listed. */
  function FirstMissing(p: Payload, keys: seq<string>): (r: Option<string>)
    ensures r.None? <==> HasAll(p, keys)
    ensures r.Some? ==> r.value !in p && exists i :: 0 <= i < |keys| && keys[i] == r.value && HasAll(p, keys[..i])
  {
    if keys == [] then None
    else if keys[0] !in p then
      assert HasAll(p, keys[..0]);
      Some(keys[0])
    else
      var rest := FirstMissing(p, keys[1..]);
      if rest.Some? then
        var i :| 0 <= i < |keys[1..]| && keys[1..][i] == rest.value && HasAll(p, keys[1..][..i]);
        assert keys[i + 1] == rest.value;
        var pre := keys[..i + 1];
        forall j | 0 <= j < |pre| ensures pre[j] in p {
          if j > 0 { assert pre[j] == keys[1..][..i][j - 1]; }
        }
        assert HasAll(p, pre);
        rest
      else
        assert forall j :: 0 <= j < |keys| ==> keys[j] in p by {
          forall j | 0 <= j < |keys| ensures keys[j] in p {
            if j > 0 { assert keys[j] == keys[1..][j - 1]; }
          }
        }
        None
  }

  /** Skipping keys that are present does not change the first missing one. */
  lemma {:induction false} FirstMissingSkip(p: Payload, keys: seq<string>, i: int)
    requires 0 <= i <= |keys| && HasAll(p, keys[..i])
    ensures FirstMissing(p, keys) == FirstMissing(p, keys[i..])
    decreases i
  {
    if i > 0 {
      assert keys[0] == keys[..i][0];
      var rest := keys[1..];
      var pre := rest[..i - 1];
      forall j | 0 <= j < |pre| ensures pre[j] in p {
        assert pre[j] == keys[..i][j + 1];
      }
      FirstMissingSkip(p, rest, i - 1);
      assert rest[i - 1..] == keys[i..];
    }
  }

  /** `isinstance(x, str) and x.strip() != ""` */
  predicate NonBlankStr(j: Json) {
    j.JStr? && Strip(j.s) != ""
  }

  /** `p.get(k, default)` */
  function Get(p: Payload, k: string, default: Json): (r: Json)
    ensures k in p ==> r == p[k]
    ensures k !in p ==> r == default
  {
    if k in p then p[k] else default
  }

  /** `isinstance(x, int)` gives the integer value; `bool` is a subclass of
      `int` in Python, so `True` and `False` count as 1 and 0. */
  function PyInt(j: Json): (r: Option<int>)
    ensures r.Some? <==> j.JInt? || j.JBool?
    ensures j.JInt? ==> r == Some(j.i)
  {
    match j
    case JInt(i) => Some(i)
    case JBool(b) => Some(if b then 1 else 0)
    case _ => None
  }

  /** `len(x)`; None stands for the TypeError raised on values without one. */
  function PyLen(j: Json): (r: Option<nat>)
    ensures r.Some? <==> j.JStr? || j.JArr? || j.JObj?
    ensures j.JStr? ==> r == Some(|j.s|)
  {
    match j
    case JStr(s) => Some(|s|)
    case JArr(xs) => Some(|xs|)
    case JObj(m) => Some(|m|)
    case _ => None
  }

  /** Lists and dicts are unhashable: `x in {...}` raises TypeError on them. */
  predicate Hashable(j: Json) {
    !j.JArr? && !j.JObj?
  }

  /** `a == b` on the scalar values the handlers compare: a bool equals the
      integer it stands for, other values are equal when they are the same. */
  predicate PyEq(a: Json, b: Json) {
    if PyInt(a).Some? && PyInt(b).Some? then PyInt(a) == PyInt(b) else a == b
  }

  /** `int(x)` on a JSON value; None stands for the ValueError or TypeError
      it raises. */
  function PyIntCall(j: Json): (r: Option<int>)
    ensures j.JInt? ==> r == Some(j.i)
    ensures j.JStr? ==> r == PyIntParse(j.s)
    ensures j.JNull? || j.JArr? || j.JObj? ==> r.None?
  {
    match j
    case JInt(i) => Some(i)
    case JBool(b) => Some(if b then 1 else 0)
    case JStr(s) => PyIntParse(s)
    case _ => None
  }

  /** `str(x)` on a scalar JSON value. Lists and dicts yield None: their
      `repr` is not modelled. */
  function PyStr(j: Json): (r: Option<string>)
    ensures j.JStr? ==> r == Some(j.s)
    ensures r.None? <==> j.JArr? || j.JObj?
  {
    match j
    case JNull => Some("None")
    case JBool(b) => Some(if b then "True" else "False")
    case JInt(i) => Some(IntToString(i))
    case JStr(s) => Some(s)
    case _ => None
  }

  /** `str(x)` renders integers so that `int()` reads them back. */
  lemma PyStrOfInt(i: int)
    ensures PyStr(JInt(i)).Some? && PyIntParse(PyStr(JInt(i)).value) == Some(i)
  {
    PyIntParseIntToString(i);
  }

  /** `int(x)` on an integer, or on its decimal rendering, is that integer. */
  lemma PyIntCallOfRendering(i: int)
    ensures PyIntCall(JInt(i)) == Some(i)
    ensures PyIntCall(JStr(IntToString(i))) == Some(i)
  {
    PyIntParseIntToString(i);
  }
}
