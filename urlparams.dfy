/** Reading path and query parameters off a request (package `urlparams`).
    A request is reduced to what these reads see: the router's path
    parameters and the parsed query string. */
module UrlParams {
  import opened Strings
  import opened Strconv

  /** `url.Values`: each query key with its values, in order. */
  type Query = map<string, seq<string>>

  /** The parts of an `*http.Request` the parameter readers look at: the
      path parameters the router matched (`chi.URLParam`) and the query. */
  datatype Request = Request(route: map<string, string>, query: Query)

  /** `url.Values.Has`. */
  predicate Has(q: Query, key: string): (b: bool)
    ensures b <==> key in q
  {
    key in q
  }

  /** `url.Values.Get`: the first value of the key, "" when it has none. */
  function Get(q: Query, key: string): (v: string)
    ensures key !in q || q[key] == [] ==> v == ""
    ensures key in q && q[key] != [] ==> v == q[key][0]
  {
    if key in q && q[key] != [] then q[key][0] else ""
  }

  /** The lower-case spellings `strconv.ParseBool` reads as true. */
  const TrueSpellings: set<string> := {"1", "t", "true"}

  /** `ParsePathParam`: the matched path segment, "" when the route has no
      such parameter. */
  function ParsePathParam(r: Request, key: string): (v: string)
    ensures key in r.route ==> v == r.route[key]
    ensures key !in r.route ==> v == ""
  {
    if key in r.route then r.route[key] else ""
  }

  /** `ParseQueryParam`: the first value of the query key, or "". */
  function ParseQueryParam(r: Request, key: string): (v: string)
    ensures v == "" || (key in r.query && v in r.query[key])
    ensures key in r.query && r.query[key] != [] ==> v == r.query[key][0]
  {
    Get(r.query, key)
  }

  /** `ParseQueryFlag`: false when the key is absent; otherwise the value
      read case-insensitively as a boolean, and, when it is not one, true
      exactly if it is empty. So the flag is set exactly when the key is
      present with an empty value or one of "1", "t", "true" in any case. */
  function ParseQueryFlag(r: Request, key: string): (b: bool)
    ensures b <==> Has(r.query, key) && (ParseQueryParam(r, key) == "" || ToLower(ParseQueryParam(r, key)) in TrueSpellings)
  {
    if !Has(r.query, key) then false
    else
      var s := Get(r.query, key);
      ParseBoolLowered(s);
      match ParseBool(ToLower(s))
      case None => |s| == 0
      case Some(v) => v
  }
}
