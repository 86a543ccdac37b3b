/** The part of an HTTP request the controllers read. */
module Http {
  import opened Optional

  /**
   * A request reduced to its parameters: the query string and the parsed
   * form body, each a map from parameter name to value. A name that is not
   * in a map is a parameter the request does not carry (PHP `null`).
   */
  datatype Request = Request(query: map<string, string>, body: map<string, string>)

  /** `getQueryParam(name)`: the query-string value, or null. */
  function QueryParam(req: Request, name: string): (r: Option<string>)
    ensures r.Some? <==> name in req.query
    ensures r.Some? ==> r.value == req.query[name]
  {
    Lookup(req.query, name)
  }

  /**
   * `getParam(name)`: the body value when the body carries one, otherwise
   * the query-string value, otherwise null.
   */
  function Param(req: Request, name: string): (r: Option<string>)
    ensures name in req.body ==> r == Some(req.body[name])
    ensures name !in req.body ==> r == QueryParam(req, name)
    ensures r.None? <==> name !in req.body && name !in req.query
  {
    if name in req.body then Some(req.body[name]) else QueryParam(req, name)
  }
}
