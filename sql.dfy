/** How PostgreSQL treats a JSON value handed to it as a query parameter.
    psycopg2 sends a Python int as a numeric literal, a str as a quoted
    literal (which an integer or boolean column then parses), None as NULL,
    a list as an ARRAY and refuses a dict. */
module Sql {
  import opened Common
  import opened PyText
  import opened Json

  /** A parameter in a `WHERE col = %s` comparison: a value to compare with,
      NULL (the comparison is never true), or a value the statement rejects,
      which raises a psycopg2 error in the caller. */
  datatype Param<T> = Value(v: T) | Null | Invalid

  const Int4Min: int := -0x8000_0000
  const Int4Max: int := 0x7FFF_FFFF

  /** The white space PostgreSQL's number and boolean input routines skip. */
  predicate PgSpace(c: char) {
    c == ' ' || ('\t' <= c <= '\r')
  }

  function PgTrimLeft(s: string): (r: string)
    ensures |r| <= |s| && r == s[|s| - |r|..]
    ensures r != [] ==> !PgSpace(r[0])
  {
    if s != [] && PgSpace(s[0]) then PgTrimLeft(s[1..]) else s
  }

  function PgTrimRight(s: string): (r: string)
    ensures |r| <= |s| && r == s[..|r|]
    ensures r != [] ==> !PgSpace(r[|r| - 1])
  {
    if s != [] && PgSpace(s[|s| - 1]) then PgTrimRight(s[..|s| - 1]) else s
  }

  function PgTrim(s: string): string {
    PgTrimRight(PgTrimLeft(s))
  }

  /** One optional sign followed by decimal digits. */
  function SignedDigits(t: string): Option<int> {
    if t != [] && t[0] == '-' then
      (if IsDigits(t[1..]) then Some(-(DigitsValue(t[1..]) as int)) else None)
    else if t != [] && t[0] == '+' then
      (if IsDigits(t[1..]) then Some(DigitsValue(t[1..]) as int) else None)
    else if IsDigits(t) then Some(DigitsValue(t) as int)
    else None
  }

  /** The text of a 32-bit integer as the `integer` input routine reads it:
      surrounding white space, one optional sign, decimal digits, in range. */
  function PgIntLiteral(s: string): (r: Option<int>)
    ensures r.Some? ==> Int4Min <= r.value <= Int4Max
  {
    InInt4(SignedDigits(PgTrim(s)))
  }

  /** A parsed value when it fits the `integer` type; out of range is an
      error. */
  function InInt4(v: Option<int>): Option<int> {
    if v.Some? && Int4Min <= v.value <= Int4Max then v else None
  }

  lemma PgTrimOfNonSpace(s: string)
    requires s != [] && !PgSpace(s[0]) && !PgSpace(s[|s| - 1])
    ensures PgTrim(s) == s
  {
  }

  /** The decimal text of any 32-bit integer reads back as that integer. */
  lemma {:induction false} PgIntLiteralOfRendering(i: int)
    requires Int4Min <= i <= Int4Max
    ensures PgIntLiteral(IntToString(i)) == Some(i)
  {
    if i < 0 {
      var digits := NatToString(-i);
      var r := "-" + digits;
      assert IntToString(i) == r;
      assert r[|r| - 1] == digits[|digits| - 1];
      PgTrimOfNonSpace(r);
      assert r[1..] == digits;
      SignedLiteral(r);
    } else {
      var r := NatToString(i);
      assert IsDigit(r[0]) && IsDigit(r[|r| - 1]);
      PgTrimOfNonSpace(r);
      UnsignedLiteral(r);
    }
  }

  lemma SignedLiteral(r: string)
    requires PgTrim(r) == r && r != [] && r[0] == '-' && IsDigits(r[1..])
    requires DigitsValue(r[1..]) <= -Int4Min
    ensures PgIntLiteral(r) == Some(-(DigitsValue(r[1..]) as int))
  {
  }

  lemma UnsignedLiteral(r: string)
    requires PgTrim(r) == r && IsDigits(r)
    requires DigitsValue(r) <= Int4Max
    ensures PgIntLiteral(r) == Some(DigitsValue(r) as int)
  {
    UnsignedDigits(r);
    assert SignedDigits(PgTrim(r)) == Some(DigitsValue(r) as int);
  }

  lemma UnsignedDigits(r: string)
    requires IsDigits(r)
    ensures SignedDigits(r) == Some(DigitsValue(r) as int)
  {
    assert IsDigit(r[0]);
  }

  /** A parameter compared with an `integer` column. */
  function IntParam(j: Json): (r: Param<int>)
    ensures j.JInt? ==> r == Value(j.i)
    ensures j.JNull? <==> r.Null?
    ensures j.JStr? ==> (r.Value? <==> PgIntLiteral(j.s).Some?)
    ensures r.Value? ==> j.JInt? || j.JStr?
  {
    match j
    case JInt(i) => Value(i)
    case JNull => Null
    case JStr(s) => if PgIntLiteral(s).Some? then Value(PgIntLiteral(s).value) else Invalid
    case _ => Invalid
  }

  /** A parameter compared with a text column: PostgreSQL has no `=` between
      text and integer or boolean. */
  function TextParam(j: Json): (r: Param<string>)
    ensures r.Value? <==> j.JStr?
    ensures j.JStr? ==> r == Value(j.s)
    ensures r.Null? <==> j.JNull?
  {
    match j
    case JStr(s) => Value(s)
    case JNull => Null
    case _ => Invalid
  }

  /** A value written to an `integer` column; None stands for the error the
      INSERT or UPDATE raises (NULL included: the columns are NOT NULL). */
  function IntColumn(j: Json): (r: Option<int>)
    ensures r.Some? ==> Int4Min <= r.value <= Int4Max
    ensures j.JInt? && Int4Min <= j.i <= Int4Max ==> r == Some(j.i)
    ensures j.JBool? || j.JNull? || j.JArr? || j.JObj? ==> r.None?
  {
    match j
    case JInt(i) => if Int4Min <= i <= Int4Max then Some(i) else None
    case JStr(s) => PgIntLiteral(s)
    case _ => None
  }

  /** A value written to a text column: strings as they are, and integers and
      booleans through PostgreSQL's assignment cast to text. Lists (which
      psycopg2 binds as arrays and the cast turns into text) and objects are
      not modelled: they give None, as NULL does. */
  function TextColumn(j: Json): (r: Option<string>)
    ensures j.JStr? ==> r == Some(j.s)
    ensures j.JInt? ==> r == Some(IntToString(j.i))
    ensures r.None? <==> j.JNull? || j.JArr? || j.JObj?
  {
    match j
    case JStr(s) => Some(s)
    case JInt(i) => Some(IntToString(i))
    case JBool(b) => Some(if b then "true" else "false")
    case _ => None
  }

  predicate IsPrefix(p: string, s: string) {
    |p| <= |s| && s[..|p|] == p
  }

  /** The text of a boolean as the `boolean` input routine reads it: after
      trimming and lower-casing, a non-empty prefix of true, false, yes or no,
      "on", "of" or "off", or the digits 1 and 0. */
  function PgBoolLiteral(s: string): (r: Option<bool>)
    ensures r.Some? ==> PgTrim(s) != []
  {
    var t := Lower(PgTrim(s));
    if t == [] then None
    else if IsPrefix(t, "true") || IsPrefix(t, "yes") || t == "on" || t == "1" then Some(true)
    else if IsPrefix(t, "false") || IsPrefix(t, "no") || (|t| >= 2 && IsPrefix(t, "off")) || t == "0" then Some(false)
    else None
  }

  /** A value written to a `boolean` column. */
  function BoolColumn(j: Json): (r: Option<bool>)
    ensures j.JBool? ==> r == Some(j.b)
    ensures j.JInt? || j.JNull? || j.JArr? || j.JObj? ==> r.None?
  {
    match j
    case JBool(b) => Some(b)
    case JStr(s) => PgBoolLiteral(s)
    case _ => None
  }

  /** What a `SELECT ... WHERE key = %s` followed by `fetchone()` yields:
      a row, no row, or the error the statement raised. */
  datatype Fetch<T> = Row(v: T) | NoRow | DbError

  /** `SELECT id FROM table WHERE id = %s` with a JSON value as the key,
      as the existence checks in front of every write run it. */
  function IdFetch<T>(table: map<int, T>, j: Json): (r: Fetch<int>)
    ensures r.Row? <==> IntParam(j).Value? && IntParam(j).v in table
    ensures r.Row? ==> r.v == IntParam(j).v
    ensures r.DbError? <==> IntParam(j).Invalid?
  {
    match IntParam(j)
    case Value(k) => if k in table then Row(k) else NoRow
    case Null => NoRow
    case Invalid => DbError
  }

  /** Integer keys and their quoted decimal text find the same rows. */
  lemma IdFetchOfText<T>(table: map<int, T>, k: int)
    requires Int4Min <= k <= Int4Max
    ensures IdFetch(table, JStr(IntToString(k))) == IdFetch(table, JInt(k))
  {
    PgIntLiteralOfRendering(k);
  }
}
