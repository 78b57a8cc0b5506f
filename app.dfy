/**
 * volt/app.py: the `Volt` application. It registers route handlers in a routing
 * trie, dispatches each ASGI connection (lifespan, websocket, static files, routed
 * handlers), assembles the response headers of a handled request, and runs the
 * ASGI lifespan conversation around the application's lifespan context.
 *
 * The ASGI `receive` and `send` channels are replaced by their data: the messages
 * received become parameters and the events sent become results.
 */
module App {
  import opened Wrappers
  import opened StdHttp
  import opened Strings
  import opened Trie
  import opened Http
  import opened Middleware

  /** `Volt.static_path`: request paths starting with it are served from the static directory. */
  const STATIC_PREFIX: string := "/static"

  /** The directory name `handle_static_route` replaces by the configured static location. */
  const STATIC_DIRECTORY: string := "static"

  /** The fields of an ASGI connection scope that dispatch reads. */
  datatype Scope = Scope(kind: string, path: string, methodValue: string)

  /** What `handle_static_route` does with a request path, up to reading the file. */
  datatype StaticResult = StaticStatus(status: nat) | StaticFile(filePath: string)

  /** The exceptions dispatch lets escape. */
  datatype DispatchError =
      /** the `assert scope["type"] == "http"` */
    | UnsupportedScope(kind: string)
      /** `HTTPMethod(scope["method"])` raising `ValueError` */
    | UnknownMethod(value: string)
      /** an exception raised by the trie lookup */
    | LookupFailed(error: GetError)

  /** Where `Volt.__call__` sends a connection. */
  datatype Dispatch<H> =
    | ToLifespan
      /** `generic_response(send, status)` */
    | Generic(status: nat)
    | ToStatic(result: StaticResult)
      /** the matched handler, wrapped in the application's middlewares, and the bound route parameters */
    | ToHandler(handler: Handler<H>, routeParams: RouteParams)
    | Raise(error: DispatchError)

  /** The exceptions route registration raises. */
  datatype RouteError = UnknownRouteMethod(value: string) | InsertFailed(error: InsertError)

  /** The exception the constructor raises when the static directory is missing. */
  datatype ConfigError = StaticDirectoryMissing(location: string)

  /**
   * `handle_static_route` up to the file system: a path holding `..` is forbidden;
   * otherwise its leading slashes are stripped, a remainder shorter than three
   * characters is not found, and the file path is the remainder with every `static`
   * replaced by the static location.
   */
  function StaticResultOf(path: string, staticLocation: string): StaticResult
  {
    if Contains(path, "..") then StaticStatus(FORBIDDEN)
    else
      var stripped := LeftStrip(path, '/');
      if |stripped| < 3 then StaticStatus(NOT_FOUND)
      else StaticFile(Replace(stripped, STATIC_DIRECTORY, staticLocation))
  }

  /**
   * `handle_static_route`: the `..` test, the loop that drops leading slashes one at
   * a time, the length test and the replacement.
   */
  method HandleStaticRoute(path: string, staticLocation: string) returns (r: StaticResult)
    ensures r == StaticResultOf(path, staticLocation)
  {
    if Contains(path, "..") {
      return StaticStatus(FORBIDDEN);
    }
    var rest := path;
    while |rest| > 0 && rest[0] == '/'
      invariant |rest| <= |path| && rest == path[|path| - |rest|..]
      invariant LeftStrip(rest, '/') == LeftStrip(path, '/')
    {
      assert LeftStrip(rest, '/') == LeftStrip(rest[1..], '/');
      rest := rest[1..];
    }
    if |rest| < 3 {
      return StaticStatus(NOT_FOUND);
    }
    return StaticFile(Replace(rest, STATIC_DIRECTORY, staticLocation));
  }

  /**
   * With the default static location the served file is the request path without
   * its leading slashes: it is relative, at least three characters long, and holds
   * no `..`, so it cannot climb out of the working directory.
   */
  lemma {:induction false} DefaultStaticStaysInside(path: string)
    requires StaticResultOf(path, STATIC_DIRECTORY).StaticFile?
    ensures var file := StaticResultOf(path, STATIC_DIRECTORY).filePath;
      && 3 <= |file| <= |path| && file[0] != '/'
      && file == path[|path| - |file|..]
      && !Contains(file, "..")
  {
    var stripped := LeftStrip(path, '/');
    ReplaceSelf(stripped, STATIC_DIRECTORY);
    if Contains(stripped, "..") {
      ContainsInSuffix(path, |path| - |stripped|, "..");
    }
  }

  /**
   * Whatever the static location, as long as it is a relative name that neither
   * starts nor ends with a dot and holds no `..`, the served file is a relative
   * path holding no `..`.
   */
  lemma {:induction false} StaticStaysInside(path: string, staticLocation: string)
    requires staticLocation != [] && staticLocation[0] != '/'
    requires staticLocation[0] != '.' && staticLocation[|staticLocation| - 1] != '.'
    requires !Contains(staticLocation, "..")
    requires StaticResultOf(path, staticLocation).StaticFile?
    ensures var file := StaticResultOf(path, staticLocation).filePath;
      && file != [] && file[0] != '/'
      && !Contains(file, "..")
  {
    var stripped := LeftStrip(path, '/');
    assert !Contains(path, "..");
    ContainsInSuffix(path, |path| - |stripped|, "..");
    ReplaceNoDoubleDot(stripped, STATIC_DIRECTORY, staticLocation);
    assert StaticResultOf(path, staticLocation).filePath == Replace(stripped, STATIC_DIRECTORY, staticLocation);
  }

  /**
   * The application: its routing trie (`nodes` is the set of the trie's nodes), its
   * middlewares in registration order, and the static directory.
   */
  class Volt<H> {
    var routes: Node<H>
    ghost var nodes: set<Node<H>>
    var middlewares: seq<Middleware>
    var staticLocation: string

    ghost predicate Valid()
      reads this, nodes
    {
      routes in nodes && Trie.Valid(nodes)
    }

    /**
     * `Volt(static_location)` once the static directory is known to exist: an empty
     * trie and the `htmx` middleware alone.
     */
    constructor (staticLocation: string)
      ensures Valid() && fresh(nodes)
      ensures routes.children == map[] && routes.handlers == map[] && !routes.isEndOfRoute
      ensures middlewares == [Htmx] && this.staticLocation == staticLocation
    {
      var root := new Node<H>();
      routes := root;
      nodes := {root};
      middlewares := [Htmx];
      this.staticLocation := staticLocation;
    }

    /** `Volt.middleware(fn)`: appends, so a later middleware runs inside the earlier ones. */
    method AddMiddleware(m: Middleware)
      modifies this`middlewares
      ensures middlewares == old(middlewares) + [m]
    {
      middlewares := middlewares + [m];
    }

    /**
     * Where `__call__` sends a connection: lifespan scopes to the lifespan handler,
     * websockets to a 404, paths under `/static` to the static handler whatever
     * routes exist, and the rest to the trie, whose match is wrapped in the
     * middlewares registered at the time of the request.
     */
    ghost function Decide(scope: Scope): (d: Dispatch<H>)
      requires Valid()
      reads this, nodes
      ensures d.ToHandler? ==>
        && scope.kind == "http" && !(STATIC_PREFIX <= scope.path)
        && MethodFromValue(scope.methodValue).Some?
        && Layers(d.handler) == middlewares
        && GetResult(nodes, routes, scope.path, MethodFromValue(scope.methodValue).value)
           == Success(Some(MatchedRoute(Core(d.handler), d.routeParams)))
    {
      if scope.kind == "lifespan" then ToLifespan
      else if scope.kind == "websocket" then Generic(NOT_FOUND)
      else if scope.kind != "http" then Raise(UnsupportedScope(scope.kind))
      else if STATIC_PREFIX <= scope.path then ToStatic(StaticResultOf(scope.path, staticLocation))
      else match MethodFromValue(scope.methodValue)
        case None => Raise(UnknownMethod(scope.methodValue))
        case Some(m) =>
          match GetResult(nodes, routes, scope.path, m)
          case Failure(e) => Raise(LookupFailed(e))
          case Success(None) => Generic(NOT_FOUND)
          case Success(Some(matched)) =>
            StackLayers(Endpoint(matched.handler), middlewares);
            ToHandler(Stack(Endpoint(matched.handler), middlewares), matched.routeParams)
    }

    /** `Volt.__call__` up to running the matched handler. */
    method Dispatch(scope: Scope) returns (d: Dispatch<H>)
      requires Valid()
      ensures d == Decide(scope)
    ensures scope.kind == "lifespan" ==> d == ToLifespan
    ensures scope.kind == "websocket" ==> d == Generic(NOT_FOUND)
    ensures scope.kind !in {"lifespan", "websocket", "http"} ==> d == Raise(UnsupportedScope(scope.kind))
    ensures scope.kind == "http" && STATIC_PREFIX <= scope.path ==>
      d == ToStatic(StaticResultOf(scope.path, staticLocation))
    ensures scope.kind == "http" && !(STATIC_PREFIX <= scope.path) ==>
      match MethodFromValue(scope.methodValue)
      case None => d == Raise(UnknownMethod(scope.methodValue))
      case Some(m) =>
        match GetResult(nodes, routes, scope.path, m)
        case Failure(e) => d == Raise(LookupFailed(e))
        case Success(None) => d == Generic(NOT_FOUND)
        case Success(Some(matched)) =>
          && d.ToHandler?
          && Layers(d.handler) == middlewares
          && Core(d.handler) == matched.handler
          && d.routeParams == matched.routeParams
    {
      if scope.kind == "lifespan" {
        return ToLifespan;
      }
      if scope.kind == "websocket" {
        return Generic(NOT_FOUND);
      }
      if scope.kind != "http" {
        return Raise(UnsupportedScope(scope.kind));
      }
      if STATIC_PREFIX <= scope.path {
        var result := HandleStaticRoute(scope.path, staticLocation);
        return ToStatic(result);
      }
      var m := MethodFromValue(scope.methodValue);
      if m.None? {
        return Raise(UnknownMethod(scope.methodValue));
      }
      var found := Get(routes, scope.path, m.value, nodes);
      if found.Failure? {
        return Raise(LookupFailed(found.error));
      }
      if found.value.None? {
        return Generic(NOT_FOUND);
      }
      var handler := CreateMiddlewareStack(Endpoint(found.value.value.handler), middlewares);
      return ToHandler(handler, found.value.value.routeParams);
    }

    /**
     * `Volt.route(path, method)` applied to a handler: `HTTPMethod(method)` raises for
     * an unknown method, and otherwise the handler is inserted into the trie. Only the
     * node reached by the route's existing prefix changes, and the new nodes `created`
     * join the trie, even when the insertion raises. Once registered, an HTTP request
     * for exactly that path and method reaches the handler, with no route parameters,
     * unless the path is under `/static`.
     */
    method Route(path: string, methodValue: string, handler: H)
        returns (r: Outcome<RouteError>, ghost created: seq<Node<H>>, ghost matched: nat, ghost reached: Node<H>)
      requires Valid()
      modifies this`nodes, nodes
      ensures Valid() && nodes == old(nodes) + (set c | c in created) && fresh(nodes - old(nodes))
      ensures MethodFromValue(methodValue).None? ==>
        r == Fail(UnknownRouteMethod(methodValue)) && nodes == old(nodes) && unchanged(nodes)
      ensures MethodFromValue(methodValue).Some? ==>
        r == match old(InsertResult(nodes, routes, path, MethodFromValue(methodValue).value))
             case Pass => Pass
             case Fail(e) => Fail(InsertFailed(e))
      // The path "/" changes only the root's handlers.
      ensures MethodFromValue(methodValue).Some? && path == "/" ==>
        && created == []
        && unchanged(old(nodes) - {routes})
        && routes.children == old(routes.children)
        && routes.routeParamName == old(routes.routeParamName)
        && routes.routeParamValueType == old(routes.routeParamValueType)
        && routes.isEndOfRoute == old(routes.isEndOfRoute)
        && routes.handlers == if r.Pass? then old(routes.handlers)[MethodFromValue(methodValue).value := handler]
                              else old(routes.handlers)
      // Any other path changes only the node its existing prefix reaches, and adds the
      // new nodes, which stay in the trie even when the insertion raises.
      ensures MethodFromValue(methodValue).Some? && path != "/" ==>
        && (matched, reached) == old(Existing(nodes, routes, Segments(path)))
        && unchanged(old(nodes) - {reached})
        && reached.routeParamName == old(reached.routeParamName)
        && reached.routeParamValueType == old(reached.routeParamValueType)
        && matched + |created| <= |Segments(path)|
        && (created == [] ==> reached.children == old(reached.children))
        && (created != [] ==> reached.children == old(reached.children)[Segments(path)[matched] := created[0]])
        && (r.Fail? || created != [] ==>
              reached.handlers == old(reached.handlers) && reached.isEndOfRoute == old(reached.isEndOfRoute))
        && (r.Pass? && created == [] ==>
              reached.isEndOfRoute && reached.handlers == old(reached.handlers)[MethodFromValue(methodValue).value := handler])
      ensures r.Pass? ==>
        Decide(Scope("http", path, methodValue)) ==
          if STATIC_PREFIX <= path then ToStatic(StaticResultOf(path, staticLocation))
          else ToHandler(Stack(Endpoint(handler), middlewares), map[])
    {
      var m := MethodFromValue(methodValue);
      if m.None? {
        created, matched, reached := [], 0, routes;
        return Fail(UnknownRouteMethod(methodValue)), created, matched, reached;
      }
      ghost var nodes';
      var outcome;
      ghost var kids, handlers, isEnd;
      outcome, nodes', created, matched, reached, kids, handlers, isEnd := Insert(routes, path, m.value, handler, nodes);
      nodes := nodes';
      r := match outcome
        case Pass => Pass
        case Fail(e) => Fail(InsertFailed(e));
      if r.Pass? {
        RegisteredIsDispatched(path, methodValue, handler);
      }
    }

    /** A route the trie finds for a path outside `/static` is what dispatch calls. */
    lemma RegisteredIsDispatched(path: string, methodValue: string, handler: H)
      requires Valid() && MethodFromValue(methodValue).Some?
      requires GetResult(nodes, routes, path, MethodFromValue(methodValue).value) == Success(Some(MatchedRoute(handler, map[])))
      ensures Decide(Scope("http", path, methodValue)) ==
        if STATIC_PREFIX <= path then ToStatic(StaticResultOf(path, staticLocation))
        else ToHandler(Stack(Endpoint(handler), middlewares), map[])
    {
    }
  }

  /**
   * `Volt(static_location)`: raises when the static directory does not exist
   * (`staticLocationExists` is that file-system test).
   */
  method NewVolt<H>(staticLocation: string, staticLocationExists: bool) returns (r: Result<Volt<H>, ConfigError>)
    ensures r.Success? <==> staticLocationExists
    ensures r.Failure? ==> r.error == StaticDirectoryMissing(staticLocation)
    ensures r.Success? ==> && fresh(r.value) && r.value.Valid() && fresh(r.value.nodes)
                           && r.value.middlewares == [Htmx] && r.value.staticLocation == staticLocation
                           && r.value.routes.children == map[] && r.value.routes.handlers == map[]
  {
    var app := new Volt<H>(staticLocation);
    if !staticLocationExists {
      return Failure(StaticDirectoryMissing(staticLocation));
    }
    return Success(app);
  }

  /**
   * The request headers a request handler builds from the raw ASGI header pairs:
   * each pair becomes a validated `Header`, in order, and the first invalid pair
   * raises.
   */
  method RequestHeaders(raw: seq<(string, string)>) returns (r: Result<seq<Header>, HeaderError>)
    ensures r.Success? <==> forall k :: 0 <= k < |raw| ==> ValidName(raw[k].0) && ValidValue(raw[k].1)
    ensures r.Success? ==> |r.value| == |raw| && forall k :: 0 <= k < |raw| ==> r.value[k] == Header(raw[k].0, raw[k].1)
    ensures r.Failure? ==> exists k ::
      && 0 <= k < |raw| && !(ValidName(raw[k].0) && ValidValue(raw[k].1))
      && (forall j :: 0 <= j < k ==> ValidName(raw[j].0) && ValidValue(raw[j].1))
      && (!ValidName(raw[k].0) ==> r.error.InvalidNameChar? && r.error.c in raw[k].0 && !NameChar(r.error.c))
      && (ValidName(raw[k].0) ==> r.error.InvalidValueChar? && r.error.c in raw[k].1 && !ValueChar(r.error.c))
  {
    var headers: seq<Header> := [];
    for i := 0 to |raw|
      invariant |headers| == i
      invariant forall k :: 0 <= k < i ==> ValidName(raw[k].0) && ValidValue(raw[k].1)
      invariant forall k :: 0 <= k < i ==> headers[k] == Header(raw[k].0, raw[k].1)
    {
      var header := NewHeader(raw[i].0, raw[i].1);
      if header.Failure? {
        return Failure(header.error);
      }
      headers := headers + [header.value];
    }
    return Success(headers);
  }

  /** The `Set-Cookie` headers for some cookies, in order. */
  function CookieHeaders(cookies: seq<Cookie>): (hs: seq<Header>)
    ensures |hs| == |cookies|
    ensures forall k :: 0 <= k < |cookies| ==> hs[k] == Header("Set-Cookie", cookies[k].output)
  {
    if cookies == [] then [] else CookieHeaders(cookies[..|cookies| - 1]) + [Header("Set-Cookie", cookies[|cookies| - 1].output)]
  }

  /** The `http.response.start` event: the status and the header pairs, in order. */
  datatype ResponseStart = ResponseStart(status: nat, headers: seq<(string, string)>)

  function HeaderPairs(headers: seq<Header>): (pairs: seq<(string, string)>)
    ensures |pairs| == |headers|
    ensures forall k :: 0 <= k < |headers| ==> pairs[k] == (headers[k].name, headers[k].value)
  {
    if headers == [] then [] else HeaderPairs(headers[..|headers| - 1]) + [(headers[|headers| - 1].name, headers[|headers| - 1].value)]
  }

  /**
   * The cookie loop of `Volt.__call__`: one `Set-Cookie` header per cookie, in order,
   * appended to the response's headers; a cookie the value validator refuses raises,
   * leaving the headers of the cookies before it in place.
   */
  method AppendCookieHeaders(response: HttpResponse, cookies: seq<Cookie>) returns (r: Outcome<HeaderError>)
    modifies response`headers
    ensures r.Pass? <==> forall k :: 0 <= k < |cookies| ==> ValidValue(cookies[k].output)
    ensures r.Pass? ==> response.headers == old(response.headers) + CookieHeaders(cookies)
    ensures r.Fail? ==> exists k ::
      && 0 <= k < |cookies| && !ValidValue(cookies[k].output)
      && (forall j :: 0 <= j < k ==> ValidValue(cookies[j].output))
      && response.headers == old(response.headers) + CookieHeaders(cookies[..k])
  {
    for i := 0 to |cookies|
      invariant response.headers == old(response.headers) + CookieHeaders(cookies[..i])
      invariant forall j :: 0 <= j < i ==> ValidValue(cookies[j].output)
    {
      var cookie := NewHeader("Set-Cookie", cookies[i].output);
      if cookie.Failure? {
        return Fail(cookie.error);
      }
      assert cookies[..i + 1][..i] == cookies[..i];
      response.headers := response.headers + [cookie.value];
    }
    assert cookies[..|cookies|] == cookies;
    return Pass;
  }

  /**
   * The end of `Volt.__call__` for a handled request: a `content-type` header is put
   * first, one `Set-Cookie` header per cookie is appended when the response has
   * cookies, and the start event (status and headers) and the body are what is sent.
   * A content type or cookie the value validator refuses raises, leaving the
   * headers added before it in place.
   */
  method FinishResponse(response: HttpResponse) returns (r: Result<(ResponseStart, string), HeaderError>)
    modifies response`headers
    ensures var cookies := if response.cookies.Some? then response.cookies.value else [];
      && (r.Success? <==> ValidValue(response.contentType) && forall k :: 0 <= k < |cookies| ==> ValidValue(cookies[k].output))
      && (r.Success? ==>
          && response.headers == [Header("content-type", response.contentType)] + old(response.headers) + CookieHeaders(cookies)
          && r.value == (ResponseStart(response.status, HeaderPairs(response.headers)), response.body))
      && (r.Failure? && !ValidValue(response.contentType) ==> response.headers == old(response.headers))
      && (r.Failure? && ValidValue(response.contentType) ==> exists k ::
          && 0 <= k < |cookies| && !ValidValue(cookies[k].output)
          && (forall j :: 0 <= j < k ==> ValidValue(cookies[j].output))
          && response.headers == [Header("content-type", response.contentType)] + old(response.headers) + CookieHeaders(cookies[..k]))
  {
    var contentType := NewHeader("content-type", response.contentType);
    if contentType.Failure? {
      return Failure(contentType.error);
    }
    response.headers := [contentType.value] + response.headers;
    var cookies := if response.cookies.Some? then response.cookies.value else [];
    var appended := AppendCookieHeaders(response, cookies);
    if appended.Fail? {
      return Failure(appended.error);
    }
    return Success((ResponseStart(response.status, HeaderPairs(response.headers)), response.body));
  }

  /** The lifespan events the application sends. */
  datatype LifespanEvent = StartupComplete | StartupFailed | ShutdownComplete | ShutdownFailed

  const LIFESPAN_STARTUP: string := "lifespan.startup"
  const LIFESPAN_SHUTDOWN: string := "lifespan.shutdown"

  /**
   * The event sequences the ASGI lifespan protocol allows a server to see: nothing,
   * a failed startup, or a completed startup followed by one shutdown outcome.
   */
  predicate LifespanConversation(sent: seq<LifespanEvent>)
  {
    || sent == []
    || sent == [StartupFailed]
    || sent == [StartupComplete, ShutdownComplete]
    || sent == [StartupComplete, ShutdownFailed]
  }

  /**
   * `Volt.handle_lifespan`. `first` and `second` are the types of the two received
   * messages; `startupRaises` and `shutdownRaises` say whether the application's
   * lifespan context raises before or after it yields. The first message is
   * asserted outside the `try`, so a wrong one raises with nothing sent; any later
   * exception sends the failure event of the phase the `started` flag names and is
   * re-raised. `raised` is whether an exception leaves the handler.
   */
  method HandleLifespan(first: string, second: string, startupRaises: bool, shutdownRaises: bool)
    returns (sent: seq<LifespanEvent>, raised: bool)
    ensures LifespanConversation(sent)
    ensures !raised <==> first == LIFESPAN_STARTUP && !startupRaises && second == LIFESPAN_SHUTDOWN && !shutdownRaises
    ensures !raised ==> sent == [StartupComplete, ShutdownComplete]
    ensures first != LIFESPAN_STARTUP ==> raised && sent == []
    ensures first == LIFESPAN_STARTUP && startupRaises ==> sent == [StartupFailed]
    ensures first == LIFESPAN_STARTUP && !startupRaises ==>
      |sent| == 2 && sent[0] == StartupComplete && (sent[1] == ShutdownFailed <==> raised)
  {
    var started := false;
    sent := [];
    if first != LIFESPAN_STARTUP {
      return sent, true;
    }
    var failed := false;
    if startupRaises {
      failed := true;
    } else {
      sent := sent + [StartupComplete];
      started := true;
      if second != LIFESPAN_SHUTDOWN || shutdownRaises {
        failed := true;
      }
    }
    if failed {
      sent := sent + [if started then ShutdownFailed else StartupFailed];
      return sent, true;
    }
    sent := sent + [ShutdownComplete];
    raised := false;
  }
}
