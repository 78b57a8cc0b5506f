/**
 * Stand-ins for the parts of Python's standard `http` module that volt uses:
 * the `HTTPMethod` enumeration and the `HTTPStatus` codes.
 */
module StdHttp {
  import opened Wrappers

  /** `http.HTTPMethod`: a string enumeration whose values equal the member names. */
  datatype Method = CONNECT | DELETE | GET | HEAD | OPTIONS | PATCH | POST | PUT | TRACE

  /** The value each member stands for. */
  function MethodName(m: Method): (s: string)
  {
    match m
    case CONNECT => "CONNECT"
    case DELETE => "DELETE"
    case GET => "GET"
    case HEAD => "HEAD"
    case OPTIONS => "OPTIONS"
    case PATCH => "PATCH"
    case POST => "POST"
    case PUT => "PUT"
    case TRACE => "TRACE"
  }

  /**
   * `HTTPMethod(s)`: the member whose value is `s`; `None` stands for the
   * `ValueError` raised for any other string (the lookup is case-sensitive).
   */
  function MethodFromValue(s: string): (r: Option<Method>)
    ensures r.Some? ==> MethodName(r.value) == s
    ensures r.None? ==> forall m: Method :: MethodName(m) != s
  {
    if s == "CONNECT" then Some(CONNECT)
    else if s == "DELETE" then Some(DELETE)
    else if s == "GET" then Some(GET)
    else if s == "HEAD" then Some(HEAD)
    else if s == "OPTIONS" then Some(OPTIONS)
    else if s == "PATCH" then Some(PATCH)
    else if s == "POST" then Some(POST)
    else if s == "PUT" then Some(PUT)
    else if s == "TRACE" then Some(TRACE)
    else None
  }

  /** Every member is recovered from its value. */
  lemma MethodRoundTrip(m: Method)
    ensures MethodFromValue(MethodName(m)) == Some(m)
  {
  }

  /** The `HTTPStatus` codes that volt produces. */
  const OK: nat := 200
  const FOUND: nat := 302
  const FORBIDDEN: nat := 403
  const NOT_FOUND: nat := 404
}
