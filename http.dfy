/** What a view hands back to the framework. */
module Http {

  datatype Body =
    | Message(text: string)
    | Errors(fields: set<string>)
    | TokenPair(refresh: string, access: string)
    /** An exception the view does not catch; the framework answers 500. */
    | Raised(exception: string)

  datatype Response = Response(status: nat, body: Body)

  function Crash(exception: string): Response
  {
    Response(500, Raised(exception))
  }
}
