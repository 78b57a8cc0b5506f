# volt in Dafny

A Dafny model of the core of **volt**, a small Python ASGI web framework. Four
parts are modelled:

- **The routing trie** (`volt/trie.py`), in `trie.dfy` and `trie_properties.dfy`.
  Nodes are a `class Node<T>` with the Python fields: `children`, `isEndOfRoute`,
  `handlers`, `routeParamName` and `routeParamValueType`.
  - `Insert` and `Get` are methods that walk and grow the trie in place.
  - A ghost set `nodes` holds every node of the trie. `Valid(nodes)` says the set is
    closed under children and that no node has two parameter children.
  - Each method is proved against a ghost specification: `InsertResult` and `Grown`/`Marked`
    for `insert`, and `GetResult`/`WalkFrom` for `get`. Lemmas about those
    specifications state what the router promises.
- **The HTTP values** (`volt/http.py`), in `http.dfy`:
  - the two header validators and the validated `Header`;
  - `HttpRequest` and `HttpResponse` as classes, since later steps change their fields in place;
  - `Redirect`.
- **The middleware** (`volt/middleware.py`), in `middleware.dfy`:
  - `wrap_middleware` and `create_middleware_stack`, over a handler modelled by its
    shape (its endpoint and its layers of middleware);
  - the `htmx` middleware, which scans the request headers and sets the request's
    two htmx fields.
- **The application** (`volt/app.py`), in `app.dfy`:
  - the `Volt` class and route registration;
  - the dispatch of an ASGI connection, up to calling the matched handler;
  - the static-file guard;
  - the request-header and response-header assembly;
  - the ASGI lifespan conversation.

Supporting modules:

- `wrappers.dfy`: `Option`, `Result`, `Outcome`.
- `std_http.dfy`: Python's `HTTPMethod` and the `HTTPStatus` codes used.
- `ascii.dfy`: `isalnum` and `lower`.
- `strings.dfy`: `split`, `in` on strings, `replace`, and the leading-slash strip.
- `int_parse.dfy`: Python's `int()` on a string, and `str()` on an integer.

A Python exception is modelled as the `Failure`/`Fail` side of a result. That covers
the exceptions raised on purpose, the `ValueError` of an enumeration lookup, and a
failing `assert`.

The model keeps several quirks of the trie:

- `insert` adds a new node to the trie before it checks the node's parameter
  segment. A route that then raises `MultipleRouteParamsError`, a malformed-segment
  error or `ValueError` still leaves that node behind.
- For an unknown type (`{id:float}`), the left-behind node gets its parameter name
  but no type. A later `get` that reaches it fails on the `assert ... is not None`
  (`GetError.MissingParamValueType`).
- Inserting `"/"` sets no end-of-route mark on the root.
- A parameter segment with an empty name, such as `{:int}`, gets a node whose
  parameter name is empty. `get` skips such a child when it looks for a parameter,
  so that route matches only the literal text `{:int}`.

One quirk of the static-file guard is kept as well: every `static` in the path is
replaced, and a static location of `.` turns `/static./x` into `../x`.

## Model

| member | source | states |
|---|---|---|
| StdHttp.MethodFromValue | volt/app.py:57 | `HTTPMethod(s)` finds the member whose value is `s`, and raises (`None`) exactly when no member has that value |
| StdHttp.MethodRoundTrip | volt/app.py:149 | every method is found again from its value |
| IntParse.ParseInt | volt/trie.py:148 | `int(segment)`: surrounding whitespace is skipped (C whitespace and the Unicode spaces, not the separators 0x1C to 0x1F), one optional sign is read, and the rest must be digits with single underscores between digits, at most 4300 of them; anything else raises `ValueError` (`None`) |
| IntParse.IntRoundTrip | volt/trie.py:146-148 | `int()` reads the decimal text of any integer of at most 4300 digits back as that integer |
| IntParse.AcceptedDigitCount | volt/trie.py:147-152 | `int()` accepts a string only if it holds between 1 and 4300 digits; a longer number raises `ValueError` however well formed |
| IntParse.LetterIsNotInt | volt/trie.py:147-152 | `int()` raises `ValueError` on any string that holds a letter |
| Trie.ParamValueTypeFromValue | volt/trie.py:12-14 | `ParamValueType(s)` is `STRING` iff `s` is `"str"`, `INTEGER` iff `s` is `"int"`, and raises for every other string |
| Trie.TypeValue | volt/trie.py:12-14 | each parameter type is found again from its value |
| Trie.Node.constructor | volt/trie.py:22-27 | a new node has no children and no handlers, does not end a route, and has an empty parameter name and no type |
| Ascii.IsAlnum | volt/http.py:34 | `char.isalnum()` on ASCII: a digit, an upper-case or a lower-case letter |
| Ascii.Lower | volt/middleware.py:25 | `s.lower()` on ASCII: same length, each upper-case letter mapped to its lower-case letter and every other character kept |
| Strings.Split | volt/trie.py:58 | `s.split(sep)`: at least one piece and no piece holds the separator; the pieces joined by the separator give back `s` (`JoinSplit`) |
| Strings.JoinSplit | volt/trie.py:58 | joining the pieces of a split with the separator gives back the string |
| Strings.SplitJoin | volt/trie.py:82 | splitting a join of separator-free pieces gives back the pieces, so `split` loses nothing |
| Strings.Contains | volt/app.py:157 | `sub in s`: `sub` starts at some index of `s` (`ContainsHasPosition`), and an occurrence at any index is found (`PositionIsContained`) |
| Strings.ContainsHasPosition | volt/app.py:157 | when `sub in s`, there is an index where `sub` occurs |
| Strings.PositionIsContained | volt/app.py:157 | an occurrence of `sub` at any index makes `sub in s` true |
| Strings.Replace | volt/app.py:170 | `s.replace(pat, repl)`: occurrences replaced left to right without overlap; a string without the pattern is unchanged (`ReplaceAbsent`) and replacing the pattern by itself changes nothing (`ReplaceSelf`) |
| Strings.ReplaceAbsent | volt/app.py:170 | a string in which the pattern does not occur is returned unchanged |
| Strings.ReplaceSelf | volt/app.py:170 | replacing the pattern by itself gives back the string |
| Strings.ReplaceNoDoubleDot | volt/app.py:157-170 | replacing by a text with no `..` that neither starts nor ends with a dot creates no `..` |
| Strings.LeftStrip | volt/app.py:162-163 | the `while path.startswith("/")` loop as a value: a suffix of `s` that does not start with `c`, everything before it being `c` |
| Trie.Segments | volt/trie.py:55-58 | stripping one leading `/` and splitting on `/` gives at least one segment, and no segment holds a `/` |
| Trie.IsParamSegment | volt/trie.py:74 | a segment is a parameter segment iff it is longer than 3 characters and starts with `{` and ends with `}` |
| Trie.Classify | volt/trie.py:74-86 | a non-parameter segment is literal; a parameter segment whose inside does not split on `:` into exactly two parts fails the assertion; an unknown type raises; otherwise it is parameter `name` of that type |
| Trie.SegmentError | volt/trie.py:74-86 | the only errors a created node's own segment can raise are the malformed `{...}` assertion and an unknown type value |
| Trie.FirstError | volt/trie.py:60-88 | the first error among the remaining segments is of one of those two kinds |
| Trie.ParamChild | volt/trie.py:136-139 | gives the key of a child with a parameter name, and `None` exactly when the node has no such child |
| Trie.Follow | volt/trie.py:60-66 | a walk along literal keys only ever reaches nodes of the trie |
| Trie.Existing | volt/trie.py:60-66 | the existing prefix of the route is no longer than the route, and it ends at a node of the trie |
| Trie.WalkFrom | volt/trie.py:126-161 | the node `get`'s loop reaches is a node of the trie |
| Trie.PathIsFollowed | volt/trie.py:60-66 | a chain of nodes linked by the route's keys is exactly what the literal walk follows |
| Trie.ExistingIsFollowed | volt/trie.py:60-66 | `insert` can follow the existing prefix, and stops only at a segment its node has no child for |
| Trie.FollowIsWalked | volt/trie.py:126-131 | literal children win: if every segment exists as a literal key, `get` walks to the same node and binds no parameters |
| Trie.FollowIsExisting | volt/trie.py:60-66 | when every segment exists, `insert` walks the whole route and creates nothing |
| Trie.GetPresentRoute | volt/trie.py:126-170 | on a route whose segments all exist, `get` returns the node's handler with no parameters iff the node ends a route and has a handler for the method, and otherwise returns `None` |
| Trie.InsertPresentRoute | volt/trie.py:60-94 | on a route whose segments all exist, `insert` raises `DuplicateMethodHandlersError` iff the node has a handler for the method; otherwise it succeeds, so handlers for different methods coexist |
| Trie.Registered | volt/trie.py:90-94 | after a registration, `get` of that route and method returns the handler with no parameters, and a second `insert` raises `DuplicateMethodHandlersError` |
| Trie.ChainDistinct | volt/trie.py:68-88 | the nodes created by one `insert` are pairwise distinct |
| Trie.ChainKeepsValid | volt/trie.py:70-81 | hanging a chain of new nodes below a node keeps the trie closed, with at most one parameter child per node |
| Trie.Descend | volt/trie.py:55-66 | walks the existing prefix of the route's segments, stopping at the first segment the current node has no child for |
| Trie.AddNode | volt/trie.py:70-86 | adds a blank child under the segment, then raises `MultipleRouteParamsError` if a parameter segment meets a parameter child; otherwise sets the name and type the segment gives, or raises for a bad segment |
| Trie.Attach | volt/trie.py:70-88 | adds one node to the chain of new nodes; the new node is fresh and differs from every earlier one |
| Trie.Lengthen | volt/trie.py:60-88 | creates one node per remaining segment, stopping at the first segment that raises |
| Trie.Extend | volt/trie.py:60-88 | creates the missing tail of the route: the first new node is hung under the first missing segment, and the outcome is the first error met |
| Trie.Hang | volt/trie.py:60-88 | `Extend`, keeping the trie valid and the path to the attachment point intact |
| Trie.Register | volt/trie.py:60-94 | creates the missing nodes, then marks the end node and stores the handler, or raises `DuplicateMethodHandlersError` when the method already has one |
| Trie.RegisterExisting | volt/trie.py:90-94 | on an existing end node: raises on a duplicate method, otherwise marks the node as an end of route and adds the handler beside the others |
| Trie.RegisterNew | volt/trie.py:68-94 | on a route with a missing tail: creates it and registers on its last node, or stops at the first error |
| Trie.FollowAfterRegister | volt/trie.py:60-88 | after the missing nodes are created, the route's segments lead from the root to the node that takes the handler |
| Trie.InsertResult | volt/trie.py:46-96 | what `insert` raises, from the trie before the call: a duplicate handler on `"/"` or on the end node, `MultipleRouteParamsError` when the first new node is a parameter beside a parameter child, or else the first malformed or unknown-type segment among the new ones |
| Trie.GetResult | volt/trie.py:109-170 | what `get` returns: for `"/"` the root's handler or `None`; otherwise the segment walk, where a literal child wins over the parameter child, a string parameter binds the segment, an integer parameter binds `int(segment)` or raises `RouteParamParseError`, and a segment with no child gives `None`; at the end the node must end a route and have a handler for the method |
| Trie.Insert | volt/trie.py:46-96 | the outcome is what the trie before the call determines: `"/"` changes only the root's handlers, and other routes change only the node reached and the new nodes; on success, `get` finds the handler and a repeat raises |
| Trie.InsertPath | volt/trie.py:55-94 | `insert` of a route other than `"/"`: the outcome, the nodes created and the changes to the node reached |
| Trie.Get | volt/trie.py:109-170 | the result is `GetResult` of the trie, and the trie is not changed (the method has no `modifies` clause) |
| TrieProperties.ParamSegmentAccepted | volt/trie.py:74-86 | a `{name:type}` segment, with no `:` in the name and a known type, is read as that parameter |
| TrieProperties.ParamSegmentForm | volt/trie.py:74-86 | every segment read as a parameter has the form `{name:type}`, with no `:` in the name |
| TrieProperties.ParamSegmentShape | volt/trie.py:74-86 | a segment is read as parameter `name` of type `t` iff it is exactly `{name:t}` and the name holds no `:` |
| TrieProperties.IntParamBinds | volt/trie.py:146-148 | under an `int` parameter child, the decimal text of any integer of at most 4300 digits, with no literal child, binds that integer, and the walk goes on from that child |
| TrieProperties.StrParamBinds | volt/trie.py:144-145 | under a `str` parameter child, any segment with no literal child binds the segment text, and the walk goes on from that child |
| TrieProperties.LongNumberForIntParamRaises | volt/trie.py:146-152 | under an `int` parameter child, a segment of more than 4300 digits makes `get` raise `RouteParamParseError` |
| TrieProperties.TextForIntParamRaises | volt/trie.py:146-152 | under an `int` parameter child, a segment holding a letter makes `get` raise `RouteParamParseError` rather than return `None` |
| TrieProperties.ChainWalk | volt/trie.py:126-161 | along a chain of nodes created one below the other, a request whose segments match the route's segments walks to the last node, binding each parameter to its segment's value |
| TrieProperties.ParamRouteFound | volt/trie.py:109-170 | once a route is registered on an empty trie, a request matching it, parameters filled with values, finds the handler with the parameters bound |
| TrieProperties.RegisterThenLookUp | volt/trie.py:46-170 | `insert` of a route with parameters on a fresh root, then `get` of a matching request: the handler is found with every parameter bound to its value (string text or parsed integer); the request `"/"` finds nothing |
| TrieProperties.WithParams | volt/trie_test.py:79-86 | `insert` of `/foo/{id:int}` then `get` of `/foo/3` finds the handler with `id` bound to the integer 3 |
| Http.ValidateName | volt/http.py:29-39 | passes iff every character is `-`, `_` or alphanumeric; otherwise it raises on the first character that is not |
| Http.ValidateValue | volt/http.py:42-52 | passes iff every character is alphanumeric or in the allowed punctuation; otherwise it raises on the first character that is not |
| Http.NewHeader | volt/http.py:21-26 | a header is built iff both its name and its value are valid; a bad name is reported, naming its first bad character, before a bad value is looked at |
| Http.ValidValueHasNoControl | volt/http.py:42-52 | a valid value holds no CR, LF, tab or NUL, so it cannot split a header |
| Http.MethodFromName | volt/http.py:85 | `HTTPMethod[name]` finds a member iff some member has that name, and that member's name is `name` |
| Http.HttpRequest.constructor | volt/http.py:84-94 | stores every argument, with `hx_request` false and `hx_fragment` unset |
| Http.NewRequest | volt/http.py:74-94 | raises exactly for an unknown method name; otherwise builds a fresh request holding the arguments, with the htmx fields cleared |
| Http.HttpResponse.constructor | volt/http.py:104-117 | stores the arguments; no headers given means an empty list |
| Http.HttpResponse.Default | volt/http.py:104-117 | the defaults: an empty body, `text/html`, status 200, no headers and no cookies |
| Http.NewRedirect | volt/http.py:126-130 | succeeds iff the route is a valid header value; the result is a default response with status 302 and the single header `Location: route` |
| Middleware.Stack | volt/middleware.py:16-19 | the handler wrapped in the middlewares, the last listed innermost, the first outermost |
| Middleware.WrapMiddleware | volt/middleware.py:9-13 | the middleware becomes the outermost layer; the endpoint is unchanged |
| Middleware.CreateMiddlewareStack | volt/middleware.py:16-19 | the first listed middleware runs first, then the rest in order, then the handler; no middlewares returns the handler itself |
| Middleware.StackLayers | volt/middleware.py:16-19 | the layers of a stack are the middlewares in list order, then the handler's own layers |
| Middleware.StackConcat | volt/middleware.py:16-19 | wrapping a stack of `inner` in `outer` equals stacking `outer + inner` |
| Middleware.HxRequestAfter | volt/middleware.py:24-26 | the `hx_request` flag after the scan of the headers in order: once set by an `hx-request: true` header, it stays set |
| Middleware.HxFragmentAfter | volt/middleware.py:28-29 | `hx_fragment` after the scan of the headers in order: each `hx-fragment` header overwrites it with its value |
| Middleware.HxRequestAfterIff | volt/middleware.py:24-26 | `hx_request` ends true iff it was true before or some header is `hx-request: true`, compared without case |
| Middleware.HxFragmentAfterNone | volt/middleware.py:28-29 | with no `hx-fragment` header, `hx_fragment` keeps its value |
| Middleware.HxFragmentAfterIsLast | volt/middleware.py:28-29 | with `hx-fragment` headers, `hx_fragment` ends as the value of the last one |
| Middleware.HtmxMiddleware | volt/middleware.py:22-31 | sets both htmx fields to the results of the scan, then calls the handler once with the same request |
| App.StaticResultOf | volt/app.py:156-170 | the static-file guard as a value: `..` anywhere is forbidden, the leading slashes go, fewer than 3 characters left is not found, and the file path is the rest with every `static` replaced by the location |
| App.HandleStaticRoute | volt/app.py:156-170 | a path with `..` is forbidden (403); otherwise the leading slashes are stripped, a remainder shorter than 3 is not found (404), and the file is the remainder with `static` replaced by the static location |
| App.DefaultStaticStaysInside | volt/app.py:156-170 | with the default location, the served file is a relative suffix of the request path, at least 3 characters long, with no `..` |
| App.StaticStaysInside | volt/app.py:156-170 | for any static location that is a relative name, neither starting nor ending with a dot and holding no `..`, the served file is a relative path with no `..` |
| App.Volt.constructor | volt/app.py:35-41 | an empty trie, only the `htmx` middleware, and the given static location |
| App.NewVolt | volt/app.py:35-41 | raises exactly when the static directory is missing; otherwise it returns a fresh application with a valid trie |
| App.Volt.AddMiddleware | volt/app.py:85-86 | appends the middleware, so it runs inside the earlier ones |
| App.Volt.Decide | volt/app.py:43-62 | lifespan goes to the lifespan handler; websocket gets 404; a scope that is not `http` raises; `/static` paths go to the static handler; an unknown method or a failed lookup raises; no match gets 404. A match runs the route's handler inside the application's middlewares, with the bound parameters |
| App.Volt.Dispatch | volt/app.py:43-62 | a lifespan scope goes to the lifespan handler, a websocket gets 404, any other kind but `http` raises `UnsupportedScope`; an `http` path under `/static` gets the static guard's result; otherwise an unknown method raises, a failed lookup raises its error, no match gets 404, and a match gives a handler whose layers are the application's middlewares in order, whose endpoint is the route's handler, with the lookup's bound parameters |
| App.Volt.Route | volt/app.py:88-151 | an unknown method raises and changes nothing; otherwise the outcome is the trie insertion's. The trie only grows by the new nodes, which stay even when the insertion raises. For `"/"` only the root's handlers change. For any other path only the node reached by the existing prefix changes: it gains the first new node as a child, or, when nothing is created and the insertion succeeds, the handler. Once registered, an HTTP request for that path and method reaches the handler inside the middlewares, unless the path is under `/static` |
| App.Volt.RegisteredIsDispatched | volt/app.py:54-62 | a route the trie finds, on a path outside `/static`, is dispatched to that handler inside the middlewares |
| App.RequestHeaders | volt/app.py:104-106 | the request headers are built iff every raw name and value is valid; the headers then match the raw pairs in order; otherwise the error comes from the first invalid pair: a bad character of its name if the name is invalid, else a bad character of its value |
| App.CookieHeaders | volt/app.py:66-68 | one `Set-Cookie` header per cookie, in order, holding the cookie's output |
| App.HeaderPairs | volt/app.py:73 | the start event's header list has one (name, value) pair per header, in order |
| App.AppendCookieHeaders | volt/app.py:66-68 | appends the cookie headers iff every cookie output is valid; otherwise it stops at the first invalid one, keeping the headers appended before it |
| App.FinishResponse | volt/app.py:64-81 | `content-type` goes first, then the old headers, then the cookie headers; the start event carries the status and these headers, and the body follows. A bad content type or cookie raises, with the headers in place that were added before it |
| App.LifespanConversation | volt/app.py:232-252 | the event sequences the lifespan handler can send: nothing, a failed startup, or a completed startup followed by a completed or failed shutdown |
| App.HandleLifespan | volt/app.py:232-252 | the events sent are always a valid lifespan conversation. Nothing raises iff the startup and shutdown messages arrive and the context raises nowhere; then startup-complete and shutdown-complete are sent. A wrong first message raises with nothing sent |

## Left out

- Network I/O: the ASGI `receive` and `send` channels are replaced by their data.
  - `HandleLifespan` takes the received message types as arguments and returns the events.
  - `FinishResponse` returns the start event and the body.
  - `Dispatch` returns the decision instead of sending a `generic_response`.
- File system I/O:
  - `Path(...).exists()` in the constructor is the boolean argument of `NewVolt`.
  - The rest of `handle_static_route` is not modelled: the existence test, `stat`, `mimetypes` and the chunked file read. `StaticResult` stops at the file path.
  - `generic_response` is not modelled.
- Request building in `request_handler`:
  - `parse_qs` of the query string and of the form body, `SimpleCookie` parsing, reading the request body and the "Unexpected event" raise are not modelled. `NewRequest` takes their results as arguments.
  - The request headers (`RequestHeaders`) are modelled.
- Handlers and custom middlewares are application code, and their effects are not modelled. A handler is modelled by its shape: its endpoint and its layers of middleware.
- Middleware.HtmxMiddleware returns the handler it calls and the request it passes, instead of the awaited response.
- App.HandleLifespan: the lifespan context manager is two booleans, saying whether it raises before or after it yields. A context manager that suppresses exceptions is not modelled.
- App.FinishResponse works on the response's headers as a value. In the source, `HttpResponse.__init__` keeps the caller's list itself (volt/http.py:116), and `__call__` changes that list in place (volt/app.py:64, 68). A handler that returns a shared module-level list therefore gains another `content-type` header and more `Set-Cookie` headers on every request. The model does not capture that aliasing. The `.encode()` of the names and values of the start event (volt/app.py:73) is not modelled either: header pairs stay strings.
- App.RequestHeaders takes the raw header names and values as strings. The `.decode()` of the ASGI bytes (volt/app.py:106) is not modelled, so invalid UTF-8, which raises `UnicodeDecodeError` before any validation, is not covered.
- App.Volt.Route states which nodes change and how the node reached by the existing prefix changes. It does not restate the links, parameter fields and handlers of the new nodes; `Trie.Insert` states those in its contract (`Grown`, `Marked`), and `Route` returns the new nodes.
- Logging and the text of exception messages are not modelled, including the traceback sent with a failed lifespan event. `Node.__repr__` and `Header.__repr__` are not modelled either.
- Http.ValidateName, Http.ValidateValue and Middleware.IsHxRequestTrue use the ASCII behaviour of `str.isalnum` and `str.lower`. Non-ASCII letters and digits, which Python's Unicode versions accept or fold, are not modelled.
- IntParse.ParseInt models CPython 3.12's `int()` with ASCII digits only: non-ASCII decimal digits, which `int()` also accepts, are not modelled. The digit limit is the default 4300; a limit changed by `sys.set_int_max_str_digits` or `PYTHONINTMAXSTRDIGITS` is not modelled.
- Trie.Insert models `handlers.get(method)` as "the method has a handler", because handlers are callables and never falsy.
- Http.MethodFromName models the request constructor's `HTTPMethod[name]` by the member value. For `HTTPMethod` the names and values are the same strings.
- Http.HttpResponse.constructor models the response's `SimpleCookie` as a sequence of cookie keys with their rendered `OutputString()` text. Cookie attribute rendering is not modelled.
- Trie.Get picks the parameter child with `:|`, and Trie.AddNode asks whether one exists. The source iterates over the children dict instead. The trie invariant allows at most one parameter child, so the order of that dict does not matter. The contract of `AddNode` states the test on the children before the addition; the body, like the source, tests them after it. The new node has an empty parameter name, so the two tests agree.
- The files `volt/router.py`, `volt/zig_types.py`, `volt/generator.py`, `volt/components.py`, `volt/config.py`, `volt/log.py` and `volt/cli.py` are not part of this model.
