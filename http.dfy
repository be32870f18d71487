/** What a handler hands back to Flask: a status code with a JSON body, or an
    exception that escapes the handler, which Flask answers with status 500. */
module Http {
  import opened Json

  datatype Response =
    | Response(status: int, body: Json)
    | Uncaught(exception: string)
  {
    /** The status code the client sees. */
    function Code(): int {
      if Uncaught? then 500 else status
    }
  }

  /** The exception psycopg2 raises when PostgreSQL rejects a statement or
      one of its parameters. */
  const DbException: string := "psycopg2.Error"
  /** The exception Python raises when an operation meets a value of the
      wrong type. */
  const TypeException: string := "TypeError"
  /** The exception Python raises when a value lacks the method called on
      it, such as `.split` or `.isdigit` on a number. */
  const AttributeException: string := "AttributeError"

  /** `jsonify("..."), status` */
  function Msg(status: int, text: string): Response {
    Response(status, JStr(text))
  }

  /** `jsonify({"error": "..."}), status` */
  function ErrorObj(status: int, text: string): Response {
    Response(status, JObj(map["error" := JStr(text)]))
  }

  /** The outcome of a chain of early-return checks: either the reply of the
      first check that fails, or the value the write that follows needs. */
  datatype Guard<T> = Stop(response: Response) | Go(value: T)
}
