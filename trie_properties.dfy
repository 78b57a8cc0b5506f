/**
 * What the trie promises about route segments: the shape of the parameter segments
 * `insert` accepts, and how `get` binds request text to an `int` parameter.
 */
module TrieProperties {
  import opened Wrappers
  import opened StdHttp
  import opened Ascii
  import opened Strings
  import opened IntParse
  import opened Trie

  /** A `{name:type}` segment with a name free of `:` and a known type is read as that parameter. */
  lemma ParamSegmentAccepted(name: string, t: ParamValueType)
    requires ':' !in name
    ensures Classify("{" + name + ":" + TypeValue(t) + "}") == Param(name, t)
  {
    var s := "{" + name + ":" + TypeValue(t) + "}";
    assert s[1..|s| - 1] == name + [':'] + TypeValue(t);
    SplitPrefix(name, ':', TypeValue(t));
    SplitNoSeparator(TypeValue(t), ':');
  }

  /** Every segment read as a parameter has the `{name:type}` form. */
  lemma ParamSegmentForm(s: string)
    requires Classify(s).Param?
    ensures ':' !in Classify(s).name
    ensures s == "{" + Classify(s).name + ":" + TypeValue(Classify(s).valueType) + "}"
  {
    var name, value := Classify(s).name, TypeValue(Classify(s).valueType);
    var inner := s[1..|s| - 1];
    var params := Split(inner, ':');
    assert |params| == 2 && params[0] == name;
    assert params[1] == value by {
      assert ParamValueTypeFromValue(params[1]) == Some(Classify(s).valueType);
    }
    assert Join(params, ':') == name + [':'] + value by {
      assert params[1..] == [value];
    }
    JoinSplit(inner, ':');
    assert s == [s[0]] + inner + [s[|s| - 1]];
  }

  /**
   * The parameter segments `insert` accepts are exactly `{name:type}` with a name free
   * of `:` and a type value `str` or `int`.
   */
  lemma ParamSegmentShape(s: string, name: string, t: ParamValueType)
    ensures Classify(s) == Param(name, t) <==> ':' !in name && s == "{" + name + ":" + TypeValue(t) + "}"
  {
    if ':' !in name && s == "{" + name + ":" + TypeValue(t) + "}" {
      ParamSegmentAccepted(name, t);
    }
    if Classify(s) == Param(name, t) {
      ParamSegmentForm(s);
    }
  }

  /**
   * A request segment with no literal child, under a node whose parameter child is an
   * `int` parameter, binds the parsed integer: the decimal text of `v` binds `v`, as
   * long as it has at most 4300 digits.
   */
  lemma IntParamBinds<T>(nodes: set<Node<T>>, n: Node<T>, v: int, rest: seq<string>, params: RouteParams)
    requires Valid(nodes) && n in nodes && IntToDecimal(v) !in n.children && ParamChild(n).Some?
    requires n.children[ParamChild(n).value].routeParamValueType == Some(INTEGER)
    requires |NatToDecimal(if v < 0 then -v else v)| <= MAX_STR_DIGITS
    ensures
      var child := n.children[ParamChild(n).value];
      WalkFrom(nodes, n, [IntToDecimal(v)] + rest, params) ==
        WalkFrom(nodes, child, rest, params[child.routeParamName := Int(v)])
  {
    IntRoundTrip(v);
    assert ([IntToDecimal(v)] + rest)[1..] == rest;
  }

  /**
   * A request segment with no literal child, under a node whose parameter child is an
   * `str` parameter, binds the segment's text unchanged.
   */
  lemma StrParamBinds<T>(nodes: set<Node<T>>, n: Node<T>, seg: string, rest: seq<string>, params: RouteParams)
    requires Valid(nodes) && n in nodes && seg !in n.children && ParamChild(n).Some?
    requires n.children[ParamChild(n).value].routeParamValueType == Some(STRING)
    ensures
      var child := n.children[ParamChild(n).value];
      WalkFrom(nodes, n, [seg] + rest, params) ==
        WalkFrom(nodes, child, rest, params[child.routeParamName := Str(seg)])
  {
    assert ([seg] + rest)[1..] == rest;
  }

  /**
   * A request segment of more than 4300 digits, with no literal child, under a node
   * whose parameter child is an `int` parameter, makes `get` raise
   * `RouteParamParseError`: Python's `int()` refuses that many digits.
   */
  lemma LongNumberForIntParamRaises<T>(nodes: set<Node<T>>, n: Node<T>, seg: string, rest: seq<string>, params: RouteParams)
    requires Valid(nodes) && n in nodes && seg !in n.children && ParamChild(n).Some?
    requires n.children[ParamChild(n).value].routeParamValueType == Some(INTEGER)
    requires DigitCount(seg) > MAX_STR_DIGITS
    ensures WalkFrom(nodes, n, [seg] + rest, params) == Raised(RouteParamParseError(seg))
  {
    AcceptedDigitCount(seg);
  }

  /**
   * A request segment holding a letter, with no literal child, under a node whose
   * parameter child is an `int` parameter, makes `get` raise `RouteParamParseError`
   * rather than return `None`.
   */
  lemma TextForIntParamRaises<T>(nodes: set<Node<T>>, n: Node<T>, seg: string, k: nat, rest: seq<string>, params: RouteParams)
    requires Valid(nodes) && n in nodes && seg !in n.children && ParamChild(n).Some?
    requires n.children[ParamChild(n).value].routeParamValueType == Some(INTEGER)
    requires k < |seg| && (IsUpper(seg[k]) || IsLower(seg[k]))
    ensures WalkFrom(nodes, n, [seg] + rest, params) == Raised(RouteParamParseError(seg))
  {
    LetterIsNotInt(seg, k);
  }

  /**
   * Pattern segment `p` is one `insert` accepts, and request segment `v` reaches the
   * node created for it in a trie holding one route: by equal text, or, for a `{name:type}` segment with a
   * non-empty name, by any text `int()` accepts when the type is `int`, and by any
   * text at all when it is `str`. A parameter with an empty name is only ever
   * matched literally, since `get` skips children whose parameter name is empty.
   */
  predicate SegmentMatches(p: string, v: string)
  {
    && SegmentError(p).None?
    && (|| v == p
        || match Classify(p)
           case Param(name, t) => name != "" && (t == INTEGER ==> ParseInt(v).Some?)
           case _ => false)
  }

  /** A request's segments match a pattern's, one by one. */
  predicate RouteMatches(pattern: seq<string>, request: seq<string>)
  {
    |pattern| == |request| && forall j :: 0 <= j < |pattern| ==> SegmentMatches(pattern[j], request[j])
  }

  /** The binding request segment `v` makes for pattern segment `p`, added to `params`. */
  function Bind(p: string, v: string, params: RouteParams): RouteParams
  {
    if v == p then params
    else match Classify(p)
      case Param(name, STRING) => if name == "" then params else params[name := Str(v)]
      case Param(name, INTEGER) =>
        if name == "" then params
        else (match ParseInt(v)
          case Some(i) => params[name := Int(i)]
          case None => params)
      case _ => params
  }

  /** The parameters a request binds against a pattern, left to right, added to `params`. */
  function BoundParams(pattern: seq<string>, request: seq<string>, params: RouteParams): RouteParams
    requires |pattern| == |request|
  {
    if pattern == [] then params else BoundParams(pattern[1..], request[1..], Bind(pattern[0], request[0], params))
  }

  /**
   * `get` down a chain of nodes created by one `insert` for `segs[from..]`, hanging
   * alone below `parent`: matching request segments reach the last node of the chain,
   * binding the parameters `BoundParams` names.
   */
  lemma {:induction false} ChainWalk<T>(nodes: set<Node<T>>, parent: Node<T>, created: seq<Node<T>>, segs: seq<string>,
                                        from: nat, request: seq<string>, params: RouteParams)
    requires Valid(nodes) && parent in nodes
    requires Chain(created, segs, from) && created != [] && from + |created| == |segs|
    requires parent.children == map[segs[from] := created[0]]
    requires RouteMatches(segs[from..], request)
    ensures WalkFrom(nodes, parent, request, params)
            == Reached(created[|created| - 1], BoundParams(segs[from..], request, params))
    decreases |created|
  {
    var p, v := segs[from], request[0];
    assert SegmentMatches(segs[from..][0], request[0]);
    var bound := Bind(p, v, params);
    assert parent.children[p] == created[0];
    assert created[0] in parent.children.Values;
    assert segs[from..][1..] == segs[from + 1..];
    assert WalkFrom(nodes, parent, request, params) == WalkFrom(nodes, created[0], request[1..], bound) by {
      if v != p {
        var name, t := Classify(p).name, Classify(p).valueType;
        assert (created[0].routeParamName, created[0].routeParamValueType) == (name, Some(t));
        assert IsParamChildKey(parent, p);
        assert ParamChild(parent) == Some(p);
      }
    }
    if |created| > 1 {
      var rest := created[1..];
      assert Chain(rest, segs, from + 1) by {
        forall j | 0 <= j < |rest| - 1
          ensures rest[j].children == map[segs[from + 1 + j + 1] := rest[j + 1]]
        {
          assert rest[j] == created[j + 1];
        }
        forall j | 0 <= j < |rest|
          ensures (rest[j].routeParamName, rest[j].routeParamValueType) == CreatedFields(Classify(segs[from + 1 + j]))
        {
          assert rest[j] == created[j + 1];
        }
      }
      assert RouteMatches(segs[from + 1..], request[1..]) by {
        forall j | 0 <= j < |request| - 1
          ensures SegmentMatches(segs[from + 1..][j], request[1..][j])
        {
          assert SegmentMatches(segs[from..][j + 1], request[j + 1]);
        }
      }
      ChainWalk(nodes, created[0], rest, segs, from + 1, request[1..], bound);
    }
  }

  /**
   * A trie in which one `insert(route, method, handler)` succeeded on an empty root
   * (the nodes it created hang below the root as `Grown` and `Marked` say): `get` of
   * any request path whose segments match the route's returns the handler, with the
   * parameters the request binds.
   */
  lemma ParamRouteFound<T>(nodes: set<Node<T>>, root: Node<T>, route: string, request: string,
                           httpMethod: Method, handler: T, created: seq<Node<T>>)
    requires Valid(nodes) && root in nodes && route != "/" && request != "/"
    requires Grown(root, map[], Segments(route), 0, Pass, created)
    requires Marked(root, map[], false, httpMethod, handler, Pass, created)
    requires RouteMatches(Segments(route), Segments(request))
    ensures GetResult(nodes, root, request, httpMethod)
            == Success(Some(MatchedRoute(handler, BoundParams(Segments(route), Segments(request), map[]))))
  {
    var segs := Segments(route);
    assert segs[0..] == segs;
    ChainWalk(nodes, root, created, segs, 0, Segments(request), map[]);
  }

  /**
   * `insert(route, method, handler)` on a fresh root, then `get(request, method)`: for
   * a request whose segments match the route's, the handler is found with the
   * parameters the request binds (`"/foo/{id:int}"` then `"/foo/3"` binds `id` to 3),
   * except for the request `"/"`, which only ever looks at the root's own handlers.
   */
  method RegisterThenLookUp<T>(route: string, request: string, httpMethod: Method, handler: T)
      returns (found: Result<Option<MatchedRoute<T>>, GetError>)
    requires route != "/" && RouteMatches(Segments(route), Segments(request))
    ensures request != "/" ==>
      found == Success(Some(MatchedRoute(handler, BoundParams(Segments(route), Segments(request), map[]))))
    ensures request == "/" ==> found == Success(None)
  {
    var root := new Node<T>();
    var segs := Segments(route);
    assert Existing({root}, root, segs) == (0, root);
    assert FirstError(segs, 0).None? by {
      forall j | 0 <= j < |segs| ensures SegmentError(segs[j]).None? {
        assert SegmentMatches(segs[j], Segments(request)[j]);
      }
      NoSegmentError(segs, 0);
    }
    assert InsertResult({root}, root, route, httpMethod) == Pass;
    var r, nodes', created, matched, reached, kids, handlers, isEnd := Insert(root, route, httpMethod, handler, {root});
    if request != "/" {
      ParamRouteFound(nodes', root, route, request, httpMethod, handler, created);
    }
    found := Get(root, request, httpMethod, nodes');
  }

  /** A path of two segments, each free of `/`, splits into those two segments. */
  lemma SplitTwo(a: string, b: string)
    requires '/' !in a && '/' !in b
    ensures Segments("/" + a + "/" + b) == [a, b]
  {
    assert ("/" + a + "/" + b)[1..] == a + ['/'] + b;
    SplitPrefix(a, '/', b);
    SplitNoSeparator(b, '/');
  }

  /** `{id:int}` is read as the `int` parameter `id`. */
  lemma IdIntSegment()
    ensures Classify("{id:int}") == Param("id", INTEGER)
  {
    assert "{id:int}"[1..|"{id:int}"| - 1] == "id" + [':'] + "int";
    SplitPrefix("id", ':', "int");
    SplitNoSeparator("int", ':');
  }

  /** `int("3")` is 3. */
  lemma ParseThree()
    ensures ParseInt("3") == Some(3)
  {
    assert DigitCount("3") == 1 by {
      assert "3"[..0] == [];
    }
    assert IsNumeral("3");
  }

  /** `/foo/3` matches `/foo/{id:int}` and binds `id` to 3. */
  lemma WithParamsMatch()
    ensures RouteMatches(Segments("/foo/{id:int}"), Segments("/foo/3"))
    ensures BoundParams(Segments("/foo/{id:int}"), Segments("/foo/3"), map[]) == map["id" := Int(3)]
  {
    SplitTwo("foo", "{id:int}");
    assert "/foo/{id:int}" == "/" + "foo" + "/" + "{id:int}";
    SplitTwo("foo", "3");
    assert "/foo/3" == "/" + "foo" + "/" + "3";
    var pattern, values := ["foo", "{id:int}"], ["foo", "3"];
    assert SegmentMatches(pattern[0], values[0]) by {
      assert !IsParamSegment("foo");
    }
    assert SegmentMatches(pattern[1], values[1]) by {
      IdIntSegment();
      ParseThree();
    }
    assert BoundParams(pattern, values, map[]) == map["id" := Int(3)] by {
      IdIntSegment();
      ParseThree();
      assert pattern[1..] == ["{id:int}"] && values[1..] == ["3"];
      assert Bind("foo", "foo", map[]) == map[];
    }
  }

  /**
   * `insert(root, "/foo/{id:int}", GET, handler)` on a fresh root, then
   * `get(root, "/foo/3", GET)`: the handler is found, with `id` bound to the integer 3.
   */
  method WithParams<T>(handler: T) returns (found: Result<Option<MatchedRoute<T>>, GetError>)
    ensures found == Success(Some(MatchedRoute(handler, map["id" := Int(3)])))
  {
    WithParamsMatch();
    found := RegisterThenLookUp("/foo/{id:int}", "/foo/3", GET, handler);
  }

  /** Segments that each create a node without raising raise nothing together. */
  lemma {:induction false} NoSegmentError(segs: seq<string>, lo: nat)
    requires forall j | lo <= j < |segs| :: SegmentError(segs[j]).None?
    ensures FirstError(segs, lo).None?
    decreases |segs| - lo
  {
    if lo < |segs| {
      NoSegmentError(segs, lo + 1);
    }
  }
}
