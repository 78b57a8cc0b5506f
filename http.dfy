/**
 * The request and response values of volt/http.py: the validated `Header`, the
 * `HttpRequest` handed to handlers, and the `HttpResponse` (with its `Redirect`
 * form) that handlers return.
 */
module Http {
  import opened Wrappers
  import opened Ascii
  import opened StdHttp
  import opened Trie

  /** The punctuation `Header.validate_name` accepts besides ASCII letters and digits: the characters of `"-_"`. */
  const NAME_PUNCTUATION: set<char> := {'-', '_'}

  /**
   * The punctuation (and the space) `Header.validate_value` accepts besides ASCII
   * letters and digits: the characters of its raw string, in which the backslash
   * and the double quote both appear.
   */
  const VALUE_PUNCTUATION: set<char> :=
    {'_', ' ', ':', ';', '.', ',', '\\', '/', '"', '\'', '?', '!', '(', ')', '{', '}', '[', ']',
     '@', '<', '>', '=', '-', '+', '*', '#', '$', '&', '`', '|', '~', '^', '%'}

  predicate NameChar(c: char)
  {
    c in NAME_PUNCTUATION || IsAlnum(c)
  }

  predicate ValueChar(c: char)
  {
    c in VALUE_PUNCTUATION || IsAlnum(c)
  }

  predicate ValidName(name: string)
  {
    forall i :: 0 <= i < |name| ==> NameChar(name[i])
  }

  predicate ValidValue(value: string)
  {
    forall i :: 0 <= i < |value| ==> ValueChar(value[i])
  }

  /** The exception a validator raises: it names the first character it refused. */
  datatype HeaderError = InvalidNameChar(c: char) | InvalidValueChar(c: char)

  /** A header that passed both validators; volt never changes one after it is built. */
  datatype Header = Header(name: string, value: string)

  /**
   * `Header.validate_name`: scans the name from the left and raises on the first
   * character that is neither `-`, `_` nor alphanumeric.
   */
  method ValidateName(name: string) returns (r: Outcome<HeaderError>)
    ensures r.Pass? <==> ValidName(name)
    ensures r.Fail? ==> exists i ::
      && 0 <= i < |name|
      && r.error == InvalidNameChar(name[i])
      && !NameChar(name[i])
      && ValidName(name[..i])
  {
    for i := 0 to |name|
      invariant ValidName(name[..i])
    {
      if !NameChar(name[i]) {
        assert name[..i + 1][..i] == name[..i];
        return Fail(InvalidNameChar(name[i]));
      }
      assert name[..i + 1] == name[..i] + [name[i]];
    }
    assert name[..|name|] == name;
    return Pass;
  }

  /**
   * `Header.validate_value`: scans the value from the left and raises on the first
   * character outside the allowed punctuation that is not alphanumeric.
   */
  method ValidateValue(value: string) returns (r: Outcome<HeaderError>)
    ensures r.Pass? <==> ValidValue(value)
    ensures r.Fail? ==> exists i ::
      && 0 <= i < |value|
      && r.error == InvalidValueChar(value[i])
      && !ValueChar(value[i])
      && ValidValue(value[..i])
  {
    for i := 0 to |value|
      invariant ValidValue(value[..i])
    {
      if !ValueChar(value[i]) {
        assert value[..i + 1][..i] == value[..i];
        return Fail(InvalidValueChar(value[i]));
      }
      assert value[..i + 1] == value[..i] + [value[i]];
    }
    assert value[..|value|] == value;
    return Pass;
  }

  /**
   * `Header(name, value)`: the name is validated first, so a header bad in both parts
   * reports the name's character; only a header valid in both parts is built.
   */
  method NewHeader(name: string, value: string) returns (r: Result<Header, HeaderError>)
    ensures r.Success? <==> ValidName(name) && ValidValue(value)
    ensures r.Success? ==> r.value == Header(name, value)
    ensures !ValidName(name) ==> r.Failure? && exists i ::
      && 0 <= i < |name|
      && r.error == InvalidNameChar(name[i])
      && !NameChar(name[i])
      && ValidName(name[..i])
    ensures ValidName(name) && !ValidValue(value) ==> r.Failure? && exists i ::
      && 0 <= i < |value|
      && r.error == InvalidValueChar(value[i])
      && !ValueChar(value[i])
      && ValidValue(value[..i])
    ensures r.Failure? ==>
      || (exists i :: 0 <= i < |name| && r.error == InvalidNameChar(name[i]))
      || (exists i :: 0 <= i < |value| && r.error == InvalidValueChar(value[i]))
  {
    var checked := ValidateName(name);
    if checked.Fail? {
      return Failure(checked.error);
    }
    checked := ValidateValue(value);
    if checked.Fail? {
      return Failure(checked.error);
    }
    return Success(Header(name, value));
  }

  /**
   * A validated value cannot split a header: it holds neither a line break, a
   * carriage return, a tab nor a NUL, which the value alphabet leaves out.
   */
  lemma ValidValueHasNoControl(value: string)
    requires ValidValue(value)
    ensures forall i :: 0 <= i < |value| ==> value[i] != '\r' && value[i] != '\n' && value[i] != '\t' && value[i] != '\0'
  {
  }

  /** `HTTPMethod[name]` as used by the request constructor; the member names equal their values. */
  function MethodFromName(name: string): (r: Option<Method>)
    ensures r.Some? <==> exists m: Method :: MethodName(m) == name
    ensures r.Some? ==> MethodName(r.value) == name
  {
    MethodFromValue(name)
  }

  /** The `KeyError` the request constructor raises for an unknown method name. */
  datatype RequestError = UnknownMethodName(name: string)

  /** The parsed cookies of a request: each cookie's name and value. */
  type RequestCookies = map<string, string>

  /** `type FormData = dict[str, list[str]]`, also the shape of the query parameters. */
  type FormData = map<string, seq<string>>

  /**
   * `HttpRequest`: what a handler sees. The htmx middleware later sets the two htmx
   * fields in place, so this is a class.
   */
  class HttpRequest {
    var httpMethod: Method
    var path: string
    var body: string
    var formData: FormData
    var headers: seq<Header>
    var cookies: RequestCookies
    var queryParams: FormData
    var routeParams: RouteParams
    var hxRequest: bool
    var hxFragment: Option<string>

    /** Stores every argument and starts with no htmx information. */
    constructor (httpMethod: Method, path: string, body: string, formData: FormData, headers: seq<Header>,
                 cookies: RequestCookies, queryParams: FormData, routeParams: RouteParams)
      ensures this.httpMethod == httpMethod && this.path == path && this.body == body
      ensures this.formData == formData && this.headers == headers && this.cookies == cookies
      ensures this.queryParams == queryParams && this.routeParams == routeParams
      ensures !hxRequest && hxFragment == None
    {
      this.httpMethod := httpMethod;
      this.path := path;
      this.body := body;
      this.formData := formData;
      this.headers := headers;
      this.cookies := cookies;
      this.queryParams := queryParams;
      this.routeParams := routeParams;
      hxRequest := false;
      hxFragment := None;
    }
  }

  /**
   * `HttpRequest(method, ...)`: looks the method up by name, raising for an unknown
   * one, and otherwise builds a request with the htmx fields cleared.
   */
  method NewRequest(methodName: string, path: string, body: string, formData: FormData, headers: seq<Header>,
                    cookies: RequestCookies, queryParams: FormData, routeParams: RouteParams)
    returns (r: Result<HttpRequest, RequestError>)
    ensures r.Success? <==> MethodFromName(methodName).Some?
    ensures r.Failure? ==> r.error == UnknownMethodName(methodName)
    ensures r.Success? ==> && fresh(r.value)
                           && MethodName(r.value.httpMethod) == methodName
                           && r.value.path == path && r.value.body == body
                           && r.value.formData == formData && r.value.headers == headers
                           && r.value.cookies == cookies && r.value.queryParams == queryParams
                           && r.value.routeParams == routeParams
                           && !r.value.hxRequest && r.value.hxFragment == None
  {
    var m := MethodFromName(methodName);
    if m.None? {
      return Failure(UnknownMethodName(methodName));
    }
    var request := new HttpRequest(m.value, path, body, formData, headers, cookies, queryParams, routeParams);
    return Success(request);
  }

  /** One cookie of a response's `SimpleCookie`: its key and the rendered `Morsel.OutputString()`. */
  datatype Cookie = Cookie(key: string, output: string)

  const DEFAULT_BODY: string := ""
  const DEFAULT_CONTENT_TYPE: string := "text/html"

  /**
   * `HttpResponse`: what a handler returns. The application later inserts and appends
   * headers in place, so this is a class. `None` for the headers argument means no
   * headers; `None` for the cookies stays `None`.
   */
  class HttpResponse {
    var body: string
    var contentType: string
    var status: nat
    var headers: seq<Header>
    var cookies: Option<seq<Cookie>>

    constructor (body: string, contentType: string, status: nat, headers: Option<seq<Header>>, cookies: Option<seq<Cookie>>)
      ensures this.body == body && this.contentType == contentType && this.status == status
      ensures this.headers == (if headers.Some? then headers.value else [])
      ensures this.cookies == cookies
    {
      this.body := body;
      this.contentType := contentType;
      this.status := status;
      this.headers := if headers.Some? then headers.value else [];
      this.cookies := cookies;
    }

    /** `HttpResponse()` with every argument left at its default. */
    constructor Default()
      ensures body == DEFAULT_BODY && contentType == DEFAULT_CONTENT_TYPE && status == OK
      ensures headers == [] && cookies == None
    {
      body := DEFAULT_BODY;
      contentType := DEFAULT_CONTENT_TYPE;
      status := OK;
      headers := [];
      cookies := None;
    }
  }

  /**
   * `Redirect(route)`: a default response with status 302 and a single `Location`
   * header; a route the value validator refuses raises instead.
   */
  method NewRedirect(route: string) returns (r: Result<HttpResponse, HeaderError>)
    ensures r.Success? <==> ValidValue(route)
    ensures r.Failure? ==> r.error.InvalidValueChar? && exists i :: 0 <= i < |route| && r.error.c == route[i]
    ensures r.Success? ==> && fresh(r.value)
                           && r.value.status == FOUND
                           && r.value.headers == [Header("Location", route)]
                           && r.value.body == DEFAULT_BODY && r.value.contentType == DEFAULT_CONTENT_TYPE
                           && r.value.cookies == None
  {
    var location := NewHeader("Location", route);
    if location.Failure? {
      return Failure(location.error);
    }
    var response := new HttpResponse(DEFAULT_BODY, DEFAULT_CONTENT_TYPE, FOUND, Some([location.value]), None);
    return Success(response);
  }
}
