/**
 * The path-routing trie of volt: a tree of `Node` objects, one per path segment,
 * that maps an (HTTP method, path) pair to a handler and binds typed path
 * parameters declared as `{name:type}` segments.
 *
 * `Insert` and `Get` work on the nodes in place, as the Python functions do. Each
 * takes the root and, as a ghost argument, the set of all nodes of the trie; the
 * ghost functions `InsertResult`, `Follow` and `GetResult` say what they do.
 */
module Trie {
  import opened Wrappers
  import opened StdHttp
  import opened Strings
  import opened IntParse

  /** The declarable parameter types, by their value in a route pattern. */
  datatype ParamValueType = STRING | INTEGER

  /** `ParamValueType(s)`: lookup by value; `None` stands for the `ValueError`. */
  function ParamValueTypeFromValue(s: string): (r: Option<ParamValueType>)
    ensures r == Some(STRING) <==> s == "str"
    ensures r == Some(INTEGER) <==> s == "int"
    ensures r.None? <==> s != "str" && s != "int"
  {
    if s == "str" then Some(STRING) else if s == "int" then Some(INTEGER) else None
  }

  /** The value of a parameter type, as written after the `:` of a route segment. */
  function TypeValue(t: ParamValueType): (s: string)
    ensures ParamValueTypeFromValue(s) == Some(t)
  {
    match t
    case STRING => "str"
    case INTEGER => "int"
  }

  /** A bound parameter value: `str | int`. */
  datatype ParamValue = Str(s: string) | Int(i: int)

  type RouteParams = map<string, ParamValue>

  class Node<T> {
    var children: map<string, Node<T>>
    var isEndOfRoute: bool
    var handlers: map<Method, T>
    var routeParamName: string
    var routeParamValueType: Option<ParamValueType>

    constructor ()
      ensures children == map[] && !isEndOfRoute && handlers == map[]
      ensures routeParamName == "" && routeParamValueType == None
    {
      children := map[];
      isEndOfRoute := false;
      handlers := map[];
      routeParamName := "";
      routeParamValueType := None;
    }
  }

  /** The exceptions `insert` raises. */
  datatype InsertError =
    | MultipleRouteParamsError
    | DuplicateMethodHandlersError
      /** the `assert len(params) == 2` on a parameter segment */
    | MalformedParamSegment
      /** the `ValueError` of `ParamValueType(token)` */
    | UnknownParamValueType(token: string)

  datatype MatchedRoute<T> = MatchedRoute(handler: T, routeParams: RouteParams)

  /** The exceptions `get` raises. */
  datatype GetError =
    | RouteParamParseError(segment: string)
      /** the `assert ... is not None` on a parameter node whose type was never set */
    | MissingParamValueType

  // ---------------------------------------------------------------------------
  // Route patterns and request paths
  // ---------------------------------------------------------------------------

  /** One leading `/` removed, then split on `/`. */
  function Segments(route: string): (segs: seq<string>)
    ensures |segs| >= 1
    ensures forall i :: 0 <= i < |segs| ==> '/' !in segs[i]
  {
    Split(if |route| > 0 && route[0] == '/' then route[1..] else route, '/')
  }

  /** The shape test that makes `insert` read a segment as a parameter. */
  predicate IsParamSegment(s: string)
  {
    |s| > 3 && s[0] == '{' && s[|s| - 1] == '}'
  }

  /** How `insert` reads a segment that it creates a node for. */
  datatype SegmentKind =
    | Literal
    | Param(name: string, valueType: ParamValueType)
    | WrongArity
    | UnknownType(name: string, token: string)

  function Classify(s: string): SegmentKind
  {
    if !IsParamSegment(s) then Literal
    else
      var params := Split(s[1..|s| - 1], ':');
      if |params| != 2 then WrongArity
      else match ParamValueTypeFromValue(params[1])
        case None => UnknownType(params[0], params[1])
        case Some(t) => Param(params[0], t)
  }

  /** The parameter fields a node created for a segment of this kind ends up with. */
  function CreatedFields(kind: SegmentKind): (string, Option<ParamValueType>)
  {
    match kind
    case Literal => ("", None)
    case Param(name, t) => (name, Some(t))
    case WrongArity => ("", None)
    case UnknownType(name, _) => (name, None)
  }

  /** The error creating a node for this segment raises, if any. */
  function SegmentError(s: string): (r: Option<InsertError>)
    ensures r.Some? ==> r.value.MalformedParamSegment? || r.value.UnknownParamValueType?
  {
    match Classify(s)
    case WrongArity => Some(MalformedParamSegment)
    case UnknownType(_, token) => Some(UnknownParamValueType(token))
    case _ => None
  }

  /** The error of the first segment in `segs`, from index `lo` on, whose creation raises. */
  function FirstError(segs: seq<string>, lo: nat): (r: Option<InsertError>)
    ensures r.Some? ==> r.value.MalformedParamSegment? || r.value.UnknownParamValueType?
    decreases |segs| - lo
  {
    if lo >= |segs| then None
    else if SegmentError(segs[lo]).Some? then SegmentError(segs[lo])
    else FirstError(segs, lo + 1)
  }

  // ---------------------------------------------------------------------------
  // The trie invariant and the views of the trie used by the specifications
  // ---------------------------------------------------------------------------

  /** The child under `key` is a parameter node (its parameter name is non-empty). */
  predicate IsParamChildKey<T>(n: Node<T>, key: string)
    reads n`children, n.children.Values`routeParamName
  {
    key in n.children && n.children[key].routeParamName != ""
  }

  /** A node has at most one parameter child. */
  ghost predicate AtMostOneParamChild<T>(n: Node<T>)
    reads n`children, n.children.Values`routeParamName
  {
    forall a, b | IsParamChildKey(n, a) && IsParamChildKey(n, b) :: a == b
  }

  /**
   * `nodes` holds every node of the trie: it is closed under `children`, and no node
   * in it has two parameter children.
   */
  ghost predicate Valid<T>(nodes: set<Node<T>>)
    reads nodes`children, nodes`routeParamName
  {
    forall n | n in nodes :: n.children.Values <= nodes && AtMostOneParamChild(n)
  }

  /** The key of the parameter child, if there is one. */
  ghost function ParamChild<T>(n: Node<T>): (r: Option<string>)
    reads n`children, n.children.Values`routeParamName
    ensures r.Some? ==> IsParamChildKey(n, r.value)
    ensures r.None? ==> forall key :: !IsParamChildKey(n, key)
  {
    if exists key :: IsParamChildKey(n, key) then
      var key :| IsParamChildKey(n, key); Some(key)
    else None
  }

  /** The node reached from `n` by following `segs` as literal child keys. */
  ghost function Follow<T>(nodes: set<Node<T>>, n: Node<T>, segs: seq<string>): (r: Option<Node<T>>)
    requires Valid(nodes) && n in nodes
    reads nodes`children, nodes`routeParamName
    ensures r.Some? ==> r.value in nodes
    decreases |segs|
  {
    if segs == [] then Some(n)
    else if segs[0] in n.children then Follow(nodes, n.children[segs[0]], segs[1..])
    else None
  }

  /**
   * The longest prefix of `segs` that `Follow` can walk from `n`: its length and the
   * node it ends at.
   */
  ghost function Existing<T>(nodes: set<Node<T>>, n: Node<T>, segs: seq<string>): (e: (nat, Node<T>))
    requires Valid(nodes) && n in nodes
    reads nodes`children, nodes`routeParamName
    ensures e.0 <= |segs| && e.1 in nodes
    decreases |segs|
  {
    if segs != [] && segs[0] in n.children then
      var e := Existing(nodes, n.children[segs[0]], segs[1..]);
      (e.0 + 1, e.1)
    else (0, n)
  }

  /**
   * What `insert` raises once it has walked the existing prefix `segs[..from]` down to
   * `n`: a duplicate handler where the whole route exists; otherwise a parameter
   * conflict at the first node it creates, or else the first malformed parameter
   * segment among those it creates nodes for.
   */
  ghost function CreateOutcome<T>(n: Node<T>, segs: seq<string>, from: nat, httpMethod: Method): Outcome<InsertError>
    reads n, n.children.Values
  {
    if from >= |segs| then
      if httpMethod in n.handlers then Fail(DuplicateMethodHandlersError) else Pass
    else if IsParamSegment(segs[from]) && ParamChild(n).Some? then Fail(MultipleRouteParamsError)
    else match FirstError(segs, from)
      case Some(err) => Fail(err)
      case None => Pass
  }

  /** What `insert` raises, as a function of the trie before the call. */
  ghost function InsertResult<T>(nodes: set<Node<T>>, root: Node<T>, route: string, httpMethod: Method): Outcome<InsertError>
    requires Valid(nodes) && root in nodes
    reads nodes
  {
    if route == "/" then
      if httpMethod in root.handlers then Fail(DuplicateMethodHandlersError) else Pass
    else
      var segs := Segments(route);
      var e := Existing(nodes, root, segs);
      CreateOutcome(e.1, segs, e.0, httpMethod)
  }

  /** Where a lookup of some segments from a node ends. */
  datatype Walk<T> = Reached(node: Node<T>, params: RouteParams) | NoRoute | Raised(error: GetError)

  /**
   * The lookup of `segs` from `n`: a literal child always wins; otherwise the
   * parameter child binds the segment, as text or as a parsed integer.
   */
  ghost function WalkFrom<T>(nodes: set<Node<T>>, n: Node<T>, segs: seq<string>, params: RouteParams): (w: Walk<T>)
    requires Valid(nodes) && n in nodes
    reads nodes`children, nodes`routeParamName, nodes`routeParamValueType
    ensures w.Reached? ==> w.node in nodes
    decreases |segs|
  {
    if segs == [] then Reached(n, params)
    else if segs[0] in n.children then WalkFrom(nodes, n.children[segs[0]], segs[1..], params)
    else match ParamChild(n)
      case None => NoRoute
      case Some(key) =>
        var child := n.children[key];
        match child.routeParamValueType
        case None => Raised(MissingParamValueType)
        case Some(STRING) =>
          WalkFrom(nodes, child, segs[1..], params[child.routeParamName := Str(segs[0])])
        case Some(INTEGER) =>
          match ParseInt(segs[0])
          case None => Raised(RouteParamParseError(segs[0]))
          case Some(v) => WalkFrom(nodes, child, segs[1..], params[child.routeParamName := Int(v)])
  }

  /** What `get` returns or raises. */
  ghost function GetResult<T>(nodes: set<Node<T>>, root: Node<T>, route: string, httpMethod: Method): Result<Option<MatchedRoute<T>>, GetError>
    requires Valid(nodes) && root in nodes
    reads nodes
  {
    if route == "/" then
      if httpMethod in root.handlers then Success(Some(MatchedRoute(root.handlers[httpMethod], map[])))
      else Success(None)
    else match WalkFrom(nodes, root, Segments(route), map[])
      case NoRoute => Success(None)
      case Raised(err) => Failure(err)
      case Reached(n, params) =>
        if n.isEndOfRoute && httpMethod in n.handlers then Success(Some(MatchedRoute(n.handlers[httpMethod], params)))
        else Success(None)
  }

  // ---------------------------------------------------------------------------
  // Facts the methods' proofs use
  // ---------------------------------------------------------------------------

  /** A chain of nodes linked by the keys `segs` is what `Follow` walks. */
  lemma {:induction false} PathIsFollowed<T>(nodes: set<Node<T>>, path: seq<Node<T>>, segs: seq<string>)
    requires Valid(nodes)
    requires |path| == |segs| + 1 && path[0] in nodes
    requires forall j :: 0 <= j < |segs| ==> segs[j] in path[j].children && path[j].children[segs[j]] == path[j + 1]
    ensures Follow(nodes, path[0], segs) == Some(path[|segs|])
    decreases |segs|
  {
    if segs != [] {
      PathIsFollowed(nodes, path[1..], segs[1..]);
    }
  }

  /** The prefix that `Existing` reports can be followed, and stops for a reason. */
  lemma {:induction false} ExistingIsFollowed<T>(nodes: set<Node<T>>, n: Node<T>, segs: seq<string>)
    requires Valid(nodes) && n in nodes
    ensures var e := Existing(nodes, n, segs);
      && Follow(nodes, n, segs[..e.0]) == Some(e.1)
      && (e.0 < |segs| ==> segs[e.0] !in e.1.children)
    decreases |segs|
  {
    if segs != [] && segs[0] in n.children {
      ExistingIsFollowed(nodes, n.children[segs[0]], segs[1..]);
      var e := Existing(nodes, n, segs);
      assert segs[..e.0][1..] == segs[1..][..e.0 - 1];
    }
  }

  /**
   * Segments that can be followed as literal keys are walked the same way by the
   * lookup: a literal child always wins over the parameter child, so nothing is bound.
   */
  lemma {:induction false} FollowIsWalked<T>(nodes: set<Node<T>>, n: Node<T>, segs: seq<string>, params: RouteParams)
    requires Valid(nodes) && n in nodes && Follow(nodes, n, segs).Some?
    ensures WalkFrom(nodes, n, segs, params) == Reached(Follow(nodes, n, segs).value, params)
    decreases |segs|
  {
    if segs != [] {
      FollowIsWalked(nodes, n.children[segs[0]], segs[1..], params);
    }
  }

  /** Segments that can be followed as literal keys are the existing prefix in full. */
  lemma {:induction false} FollowIsExisting<T>(nodes: set<Node<T>>, n: Node<T>, segs: seq<string>)
    requires Valid(nodes) && n in nodes && Follow(nodes, n, segs).Some?
    ensures Existing(nodes, n, segs) == (|segs|, Follow(nodes, n, segs).value)
    decreases |segs|
  {
    if segs != [] {
      FollowIsExisting(nodes, n.children[segs[0]], segs[1..]);
    }
  }

  /**
   * `get` on a route whose segments all exist as literal keys: the handler of the node
   * reached, with no parameters, if that node ends a route and has one for the method;
   * `None` otherwise (a prefix of a longer route, or another method).
   */
  lemma GetPresentRoute<T>(nodes: set<Node<T>>, root: Node<T>, route: string, httpMethod: Method)
    requires Valid(nodes) && root in nodes && route != "/"
    requires Follow(nodes, root, Segments(route)).Some?
    ensures
      var t := Follow(nodes, root, Segments(route)).value;
      GetResult(nodes, root, route, httpMethod) ==
        if t.isEndOfRoute && httpMethod in t.handlers then Success(Some(MatchedRoute(t.handlers[httpMethod], map[])))
        else Success(None)
  {
    FollowIsWalked(nodes, root, Segments(route), map[]);
  }

  /**
   * `insert` of a route whose segments all exist: it raises
   * `DuplicateMethodHandlersError` exactly when the node reached already has a handler
   * for the method; otherwise it succeeds, so handlers for other methods coexist.
   */
  lemma InsertPresentRoute<T>(nodes: set<Node<T>>, root: Node<T>, route: string, httpMethod: Method)
    requires Valid(nodes) && root in nodes && route != "/"
    requires Follow(nodes, root, Segments(route)).Some?
    ensures
      var t := Follow(nodes, root, Segments(route)).value;
      InsertResult(nodes, root, route, httpMethod) ==
        if httpMethod in t.handlers then Fail(DuplicateMethodHandlersError) else Pass
  {
    FollowIsExisting(nodes, root, Segments(route));
  }

  /**
   * Once `insert(route, m, h)` has succeeded (the node its segments lead to ends a
   * route and holds `h` for `m`), `get(route, m)` returns `h` with no parameters and
   * a second `insert(route, m, ...)` raises `DuplicateMethodHandlersError`.
   */
  lemma Registered<T>(nodes: set<Node<T>>, root: Node<T>, route: string, httpMethod: Method, handler: T)
    requires Valid(nodes) && root in nodes
    requires route == "/" ==> httpMethod in root.handlers && root.handlers[httpMethod] == handler
    requires route != "/" ==>
      && Follow(nodes, root, Segments(route)).Some?
      && var t := Follow(nodes, root, Segments(route)).value;
         t.isEndOfRoute && httpMethod in t.handlers && t.handlers[httpMethod] == handler
    ensures GetResult(nodes, root, route, httpMethod) == Success(Some(MatchedRoute(handler, map[])))
    ensures InsertResult(nodes, root, route, httpMethod) == Fail(DuplicateMethodHandlersError)
  {
    if route != "/" {
      GetPresentRoute(nodes, root, route, httpMethod);
      InsertPresentRoute(nodes, root, route, httpMethod);
    }
  }

  /**
   * The new nodes `created` form a chain under the keys `segs[from..]`: each holds
   * only the next one, under the next key, and the last holds none; each has the
   * parameter fields `insert` gives a node created for its key.
   */
  ghost predicate Chain<T>(created: seq<Node<T>>, segs: seq<string>, from: nat)
    reads set j | 0 <= j < |created| :: created[j]`children, set j | 0 <= j < |created| :: created[j]`routeParamName,
      set j | 0 <= j < |created| :: created[j]`routeParamValueType
  {
    && from + |created| <= |segs|
    && (forall j | 0 <= j < |created| - 1 :: created[j].children == map[segs[from + j + 1] := created[j + 1]])
    && (created != [] ==> created[|created| - 1].children == map[])
    && (forall j | 0 <= j < |created| ::
          (created[j].routeParamName, created[j].routeParamValueType) == CreatedFields(Classify(segs[from + j])))
  }

  /** None of `created` holds a handler or marks the end of a route. */
  ghost predicate Blank<T>(created: seq<Node<T>>)
    reads set j | 0 <= j < |created| :: created[j]`handlers, set j | 0 <= j < |created| :: created[j]`isEndOfRoute
  {
    forall j | 0 <= j < |created| :: created[j].handlers == map[] && !created[j].isEndOfRoute
  }

  /**
   * The nodes of a chain are distinct: two equal nodes would have equal children,
   * so their successors would be equal too, down to the childless last node.
   */
  lemma {:induction false} ChainDistinct<T>(created: seq<Node<T>>, segs: seq<string>, from: nat)
    requires Chain(created, segs, from)
    ensures forall j, k | 0 <= j < k < |created| :: created[j] != created[k]
  {
    forall j, k | 0 <= j < k < |created|
      ensures created[j] != created[k]
    {
      ChainNoRepeat(created, segs, from, j, k);
    }
  }

  lemma {:induction false} ChainNoRepeat<T>(created: seq<Node<T>>, segs: seq<string>, from: nat, j: nat, k: nat)
    requires Chain(created, segs, from) && j < k < |created|
    ensures created[j] != created[k]
    decreases |created| - k
  {
    if k < |created| - 1 {
      ChainNoRepeat(created, segs, from, j + 1, k + 1);
      assert created[j].children == map[segs[from + j + 1] := created[j + 1]];
      assert created[k].children == map[segs[from + k + 1] := created[k + 1]];
      assert created[j + 1] == created[j].children[segs[from + j + 1]];
      assert created[k + 1] == created[k].children[segs[from + k + 1]];
      if segs[from + j + 1] == segs[from + k + 1] {
        assert created[j].children[segs[from + j + 1]] != created[k].children[segs[from + j + 1]];
      } else {
        assert segs[from + j + 1] !in created[k].children;
      }
    } else {
      assert created[j].children == map[segs[from + j + 1] := created[j + 1]];
      assert segs[from + j + 1] in created[j].children;
      assert created[k].children == map[];
    }
  }

  /** Every node of `nodes` but `parent` is closed under `children` and has at most one parameter child. */
  ghost predicate ValidExcept<T>(nodes: set<Node<T>>, parent: Node<T>)
    reads (nodes - {parent})`children, nodes`routeParamName
  {
    forall n | n in nodes && n != parent :: n.children.Values <= nodes && AtMostOneParamChild(n)
  }

  /** At most one of these children is a parameter node. */
  ghost predicate AtMostOneParamKey<T>(kids: map<string, Node<T>>)
    reads kids.Values`routeParamName
  {
    forall a, b | a in kids && b in kids && kids[a].routeParamName != "" && kids[b].routeParamName != "" :: a == b
  }

  /**
   * Hanging a chain of new nodes under a key missing from `parent`'s former children
   * `kids` keeps the trie valid, provided the other nodes still satisfy the invariant
   * and the first new node is a parameter node only where `kids` had none.
   */
  lemma ChainKeepsValid<T>(nodes: set<Node<T>>, parent: Node<T>, kids: map<string, Node<T>>,
                           created: seq<Node<T>>, segs: seq<string>, from: nat)
    requires parent in nodes && ValidExcept(nodes, parent)
    requires kids.Values <= nodes && AtMostOneParamKey(kids)
    requires created != [] && from + |created| <= |segs|
    requires forall c | c in created :: c !in nodes
    requires segs[from] !in kids && parent.children == kids[segs[from] := created[0]]
    requires forall j | 0 <= j < |created| - 1 :: created[j].children == map[segs[from + j + 1] := created[j + 1]]
    requires created[|created| - 1].children == map[]
    requires created[0].routeParamName != "" ==> forall k | k in kids :: kids[k].routeParamName == ""
    ensures Valid(nodes + (set c | c in created))
  {
    var all := nodes + (set c | c in created);
    forall n | n in all
      ensures n.children.Values <= all && AtMostOneParamChild(n)
    {
      if n == parent {
        var key := segs[from];
        forall v | v in n.children.Values ensures v in all {
          var k :| k in n.children && n.children[k] == v;
          if k != key {
            assert kids[k] in kids.Values;
          }
        }
        forall a, b | IsParamChildKey(n, a) && IsParamChildKey(n, b) ensures a == b {
          if a != key && b != key {
            assert kids[a].routeParamName != "" && kids[b].routeParamName != "";
          }
        }
      } else if n in nodes {
      } else {
        var j :| 0 <= j < |created| && n == created[j];
        if j < |created| - 1 {
          var next := n.children;
          assert next == map[segs[from + j + 1] := created[j + 1]];
          forall v | v in next.Values ensures v in all {
            var k :| k in next && next[k] == v;
          }
        }
      }
    }
  }

  /**
   * The first part of `insert`: the route loses one leading `/` and is split on `/`;
   * then, while the next segment has a child, the loop moves to it. It stops at the
   * longest existing prefix of the segments. `walked` is the path taken.
   */
  method Descend<T>(root: Node<T>, route: string, ghost nodes: set<Node<T>>)
      returns (segments: seq<string>, current: Node<T>, i: nat, ghost walked: seq<Node<T>>)
    requires Valid(nodes) && root in nodes
    ensures segments == Segments(route)
    ensures (i, current) == Existing(nodes, root, segments)
    ensures |walked| == i + 1 && walked[0] == root && walked[i] == current
    ensures Linked(walked, segments)
    ensures i < |segments| ==> segments[i] !in current.children
  {
    segments := Segments(route);
    current, i, walked := root, 0, [root];
    while i < |segments| && segments[i] in current.children
      invariant i <= |segments| && current in nodes
      invariant |walked| == i + 1 && walked[0] == root && walked[i] == current
      invariant forall j :: 0 <= j < i ==>
        segments[j] in walked[j].children && walked[j].children[segments[j]] == walked[j + 1]
      invariant var rest := Existing(nodes, current, segments[i..]);
        Existing(nodes, root, segments) == (i + rest.0, rest.1)
    {
      assert segments[i..][1..] == segments[i + 1..];
      current := current.children[segments[i]];
      i := i + 1;
      walked := walked + [current];
    }
  }

  /**
   * The body of `insert`'s loop for a segment `current` has no child for: a new node
   * is attached under the raw segment first, and only then is the segment checked as a
   * parameter: against the other parameter children, for its `name:type` shape, and
   * for its type. A failing check leaves the new node attached.
   */
  method AddNode<T>(current: Node<T>, segment: string)
      returns (newNode: Node<T>, err: Option<InsertError>)
    requires segment !in current.children
    modifies current`children
    ensures fresh(newNode)
    ensures current.children == old(current.children)[segment := newNode]
    ensures newNode.children == map[] && newNode.handlers == map[] && !newNode.isEndOfRoute
    ensures IsParamSegment(segment) && old(ParamChild(current)).Some? ==>
      && err == Some(MultipleRouteParamsError)
      && newNode.routeParamName == "" && newNode.routeParamValueType == None
    ensures !(IsParamSegment(segment) && old(ParamChild(current)).Some?) ==>
      && err == SegmentError(segment)
      && (newNode.routeParamName, newNode.routeParamValueType) == CreatedFields(Classify(segment))
  {
    newNode := new Node<T>();
    current.children := current.children[segment := newNode];

    err := None;
    if IsParamSegment(segment) {
      if exists key | key in current.children :: current.children[key].routeParamName != "" {
        ghost var key :| key in current.children && current.children[key].routeParamName != "";
        assert old(IsParamChildKey(current, key));
        return newNode, Some(MultipleRouteParamsError);
      }
      assert old(ParamChild(current)).None? by {
        forall key | key in old(current.children) ensures !old(IsParamChildKey(current, key)) {
          assert key in current.children;
        }
      }
      var params := Split(segment[1..|segment| - 1], ':');
      if |params| != 2 {
        return newNode, Some(MalformedParamSegment);
      }
      newNode.routeParamName := params[0];
      var valueType := ParamValueTypeFromValue(params[1]);
      if valueType.None? {
        return newNode, Some(UnknownParamValueType(params[1]));
      }
      newNode.routeParamValueType := valueType;
    }
  }

  /**
   * `AddNode` under the last node of a chain of new nodes: that node has no children,
   * so there is no parameter conflict, and the chain grows by the new node.
   */
  method Attach<T>(current: Node<T>, segment: string, ghost created: seq<Node<T>>, ghost segs: seq<string>, ghost from: nat)
      returns (newNode: Node<T>, err: Option<InsertError>, ghost grown: seq<Node<T>>)
    requires created != [] && current == created[|created| - 1]
    requires Chain(created, segs, from) && Blank(created)
    requires from + |created| < |segs| && segs[from + |created|] == segment
    modifies current`children
    ensures fresh(newNode) && grown == created + [newNode]
    ensures forall j | 0 <= j < |created| :: created[j] != newNode
    ensures current.children == old(current.children)[segment := newNode]
    ensures err == SegmentError(segment)
    ensures Chain(grown, segs, from) && Blank(grown)
  {
    ChainDistinct(created, segs, from);
    newNode, err := AddNode(current, segment);
    grown := created + [newNode];
    forall j | 0 <= j < |grown| - 1
      ensures grown[j].children == map[segs[from + j + 1] := grown[j + 1]]
    {
      if j < |created| - 1 {
        assert old(created[j].children) == map[segs[from + j + 1] := created[j + 1]];
      }
    }
    forall j | 0 <= j < |grown|
      ensures (grown[j].routeParamName, grown[j].routeParamValueType) == CreatedFields(Classify(segs[from + j]))
      ensures grown[j].handlers == map[] && !grown[j].isEndOfRoute
    {
      if j < |created| {
        assert grown[j] == created[j];
        assert old((created[j].routeParamName, created[j].routeParamValueType)) == CreatedFields(Classify(segs[from + j]));
        assert old(created[j].handlers == map[] && !created[j].isEndOfRoute);
      }
    }
  }

  /**
   * The loop of `insert` past the first node it creates, `first`, for segment `from`:
   * every remaining segment gets a new node under the previous one, until one of them
   * fails its checks. `created` is the chain of new nodes, `first` included.
   */
  method Lengthen<T>(first: Node<T>, segments: seq<string>, from: nat)
      returns (current: Node<T>, err: Option<InsertError>, ghost created: seq<Node<T>>)
    requires Chain([first], segments, from) && Blank([first])
    modifies first`children
    ensures created != [] && created[0] == first
    ensures forall j | 1 <= j < |created| :: fresh(created[j])
    ensures forall j, k | 0 <= j < k < |created| :: created[j] != created[k]
    ensures Chain(created, segments, from) && Blank(created)
    ensures err == FirstError(segments, from + 1)
    ensures err.None? ==> from + |created| == |segments| && current == created[|created| - 1]
    ensures err.Some? ==> SegmentError(segments[from + |created| - 1]) == err
  {
    current, err, created := first, None, [first];
    for i := from + 1 to |segments|
      invariant created != [] && created[0] == first
      invariant forall j | 1 <= j < |created| :: fresh(created[j])
      invariant |created| == i - from && err == None && current == created[|created| - 1]
      invariant Chain(created, segments, from) && Blank(created)
      invariant FirstError(segments, from + 1) == FirstError(segments, i)
    {
      var newNode;
      newNode, err, created := Attach(current, segments[i], created, segments, from);
      if err.Some? {
        break;
      }
      current := newNode;
    }
    ChainDistinct(created, segments, from);
  }

  /**
   * The rest of `insert`'s loop, from the first segment `start` has no child for: every
   * remaining segment gets a new node, each under the previous one, until one of them
   * fails its checks. `created` lists the new nodes in order; only `start` changes
   * among the existing nodes, and only by gaining the first of them.
   */
  method Extend<T>(start: Node<T>, segments: seq<string>, from: nat)
      returns (current: Node<T>, err: Option<InsertError>, ghost created: seq<Node<T>>)
    requires from < |segments| && segments[from] !in start.children
    modifies start`children
    ensures forall c | c in created :: fresh(c)
    ensures forall j, k | 0 <= j < k < |created| :: created[j] != created[k]
    ensures 1 <= |created| && from + |created| <= |segments|
    ensures start.children == old(start.children)[segments[from] := created[0]]
    ensures Blank(created)
    ensures err ==
      if IsParamSegment(segments[from]) && old(ParamChild(start)).Some? then Some(MultipleRouteParamsError)
      else FirstError(segments, from)
    ensures err == Some(MultipleRouteParamsError) ==>
      && |created| == 1 && created[0].children == map[]
      && created[0].routeParamName == "" && created[0].routeParamValueType == None
    ensures err != Some(MultipleRouteParamsError) ==> Chain(created, segments, from)
    ensures err.None? ==> from + |created| == |segments| && current == created[|created| - 1]
    ensures err.Some? && err != Some(MultipleRouteParamsError) ==>
      && FirstError(segments, from + |created| - 1) == err
      && SegmentError(segments[from + |created| - 1]) == err
  {
    var newNode;
    newNode, err := AddNode(start, segments[from]);
    created, current := [newNode], newNode;
    if err.Some? {
      return;
    }
    current, err, created := Lengthen(newNode, segments, from);
  }

  /** `walked` is a path of nodes linked by the first segments of `segs`. */
  ghost predicate Linked<T>(walked: seq<Node<T>>, segs: seq<string>)
    reads set j | 0 <= j < |walked| :: walked[j]`children
  {
    && |walked| <= |segs| + 1
    && forall j | 0 <= j < |walked| - 1 ::
         segs[j] in walked[j].children && walked[j].children[segs[j]] == walked[j + 1]
  }

  /**
   * `Extend`, together with the facts `insert` needs about the trie around it: the
   * trie with the new nodes is still valid, and the path walked to `start` is still
   * linked.
   */
  method Hang<T>(start: Node<T>, segments: seq<string>, from: nat, ghost nodes: set<Node<T>>, ghost walked: seq<Node<T>>)
      returns (current: Node<T>, err: Option<InsertError>, ghost created: seq<Node<T>>)
    requires Valid(nodes) && start in nodes
    requires from < |segments| && segments[from] !in start.children
    requires Linked(walked, segments)
    modifies start`children
    ensures forall c | c in created :: fresh(c)
    ensures forall j, k | 0 <= j < k < |created| :: created[j] != created[k]
    ensures 1 <= |created| && from + |created| <= |segments|
    ensures start.children == old(start.children)[segments[from] := created[0]]
    ensures Blank(created)
    ensures err ==
      if IsParamSegment(segments[from]) && old(ParamChild(start)).Some? then Some(MultipleRouteParamsError)
      else FirstError(segments, from)
    ensures err == Some(MultipleRouteParamsError) ==>
      && |created| == 1 && created[0].children == map[]
      && created[0].routeParamName == "" && created[0].routeParamValueType == None
    ensures err != Some(MultipleRouteParamsError) ==> Chain(created, segments, from)
    ensures err.None? ==> from + |created| == |segments| && current == created[|created| - 1]
    ensures err.Some? && err != Some(MultipleRouteParamsError) ==>
      && FirstError(segments, from + |created| - 1) == err
      && SegmentError(segments[from + |created| - 1]) == err
    ensures Linked(walked, segments)
    ensures Valid(nodes + (set c | c in created))
    ensures Grown(start, old(start.children), segments, from, OutcomeOf(err), created)
  {
    ghost var kids := start.children;
    assert ValidExcept(nodes, start);
    assert kids.Values <= nodes && AtMostOneParamKey(kids) by {
      assert AtMostOneParamChild(start);
      forall a, b | a in kids && b in kids && kids[a].routeParamName != "" && kids[b].routeParamName != ""
        ensures a == b
      {
        assert IsParamChildKey(start, a) && IsParamChildKey(start, b);
      }
    }
    current, err, created := Extend(start, segments, from);
    forall j | 0 <= j < |walked| - 1
      ensures segments[j] in walked[j].children && walked[j].children[segments[j]] == walked[j + 1]
    {
      assert old(segments[j] in walked[j].children && walked[j].children[segments[j]] == walked[j + 1]);
    }
    if created[0].routeParamName != "" {
      assert err != Some(MultipleRouteParamsError) && IsParamSegment(segments[from]);
      assert old(ParamChild(start)).None?;
      forall k | k in kids ensures kids[k].routeParamName == "" {
        assert !old(IsParamChildKey(start, k));
      }
    }
    ChainKeepsValid(nodes, start, kids, created, segments, from);
    GrownByExtend(start, kids, segments, from, err, created);
  }

  /** The outcome of `insert` when creating nodes raised `err`, if anything. */
  function OutcomeOf(err: Option<InsertError>): (r: Outcome<InsertError>)
    ensures r.Pass? <==> err.None?
    ensures r.Fail? ==> Some(r.error) == err
  {
    match err
    case None => Pass
    case Some(e) => Fail(e)
  }

  /**
   * How the part of `insert` after the walk changed the links, given it ended at
   * `start`, whose children were `kids`, having matched `segs[..from]`: the new nodes
   * `created` hang off `start` as a chain under the following segments (a lone blank
   * node on a parameter conflict), as far as the first malformed segment on failure.
   */
  ghost predicate Grown<T>(start: Node<T>, kids: map<string, Node<T>>, segs: seq<string>, from: nat,
                           r: Outcome<InsertError>, created: seq<Node<T>>)
    reads start`children, set j | 0 <= j < |created| :: created[j]`children, set j | 0 <= j < |created| :: created[j]`routeParamName,
      set j | 0 <= j < |created| :: created[j]`routeParamValueType
  {
    && (forall j, k | 0 <= j < k < |created| :: created[j] != created[k])
    && from + |created| <= |segs| && (created == [] <==> from >= |segs|)
    && (created == [] ==> start.children == kids)
    && (created != [] ==> segs[from] !in kids && start.children == kids[segs[from] := created[0]])
    && (r != Fail(MultipleRouteParamsError) ==> Chain(created, segs, from))
    && (r == Fail(MultipleRouteParamsError) ==>
          && |created| == 1 && created[0] in created && created[0].children == map[]
          && created[0].routeParamName == "" && created[0].routeParamValueType == None)
    && (r.Pass? ==> from + |created| == |segs|)
    && (r.Fail? && r.error != DuplicateMethodHandlersError && r.error != MultipleRouteParamsError ==>
          && created != []
          && FirstError(segs, from + |created| - 1) == Some(r.error)
          && SegmentError(segs[from + |created| - 1]) == Some(r.error))
  }

  /** What `Extend` ensures about the links is `Grown`. */
  lemma GrownByExtend<T>(start: Node<T>, kids: map<string, Node<T>>, segments: seq<string>, from: nat,
                         err: Option<InsertError>, created: seq<Node<T>>)
    requires from < |segments| && segments[from] !in kids
    requires forall j, k | 0 <= j < k < |created| :: created[j] != created[k]
    requires 1 <= |created| && from + |created| <= |segments|
    requires start.children == kids[segments[from] := created[0]]
    requires err == Some(MultipleRouteParamsError) ==>
      && |created| == 1 && created[0].children == map[]
      && created[0].routeParamName == "" && created[0].routeParamValueType == None
    requires err != Some(MultipleRouteParamsError) ==> Chain(created, segments, from)
    requires err.None? ==> from + |created| == |segments|
    requires err.Some? && err != Some(MultipleRouteParamsError) ==>
      && FirstError(segments, from + |created| - 1) == err
      && SegmentError(segments[from + |created| - 1]) == err
    ensures Grown(start, kids, segments, from, OutcomeOf(err), created)
  {
  }

  /**
   * How the part of `insert` after the walk changed the handlers, given it ended at
   * `start`, whose handlers and end-of-route mark were `handlers` and `isEnd`: on
   * failure none changed; on success the last node reached is an end of route holding
   * `handler` for `httpMethod`, and no other node changed its handlers.
   */
  ghost predicate Marked<T>(start: Node<T>, handlers: map<Method, T>, isEnd: bool, httpMethod: Method, handler: T,
                            r: Outcome<InsertError>, created: seq<Node<T>>)
    reads start`handlers, start`isEndOfRoute, set j | 0 <= j < |created| :: created[j]`handlers, set j | 0 <= j < |created| :: created[j]`isEndOfRoute
  {
    && (r.Fail? ==> start.handlers == handlers && start.isEndOfRoute == isEnd && Blank(created))
    && (r.Pass? && created == [] ==> start.isEndOfRoute && start.handlers == handlers[httpMethod := handler])
    && (r.Pass? && created != [] ==>
          && start.handlers == handlers && start.isEndOfRoute == isEnd
          && created[|created| - 1] in created
          && created[|created| - 1].isEndOfRoute
          && created[|created| - 1].handlers == map[httpMethod := handler]
          && forall j | 0 <= j < |created| - 1 :: created[j].handlers == map[] && !created[j].isEndOfRoute)
  }

  /**
   * The part of `insert` after the walk down the existing prefix `segments[..from]`,
   * which ended at `start`: the remaining segments get new nodes, then the last node
   * reached receives the handler unless it already has one for the method. The path
   * walked to `start` stays linked.
   */
  method Register<T>(start: Node<T>, segments: seq<string>, from: nat, httpMethod: Method, handler: T,
                     ghost nodes: set<Node<T>>, ghost walked: seq<Node<T>>)
      returns (r: Outcome<InsertError>, ghost created: seq<Node<T>>)
    requires Valid(nodes) && start in nodes
    requires from <= |segments| && (from < |segments| ==> segments[from] !in start.children)
    requires Linked(walked, segments) && |walked| == from + 1 && walked[0] in nodes && walked[from] == start
    modifies start`children, start`handlers, start`isEndOfRoute
    ensures r == old(CreateOutcome(start, segments, from, httpMethod))
    ensures forall c | c in created :: fresh(c)
    ensures Grown(start, old(start.children), segments, from, r, created)
    ensures Marked(start, old(start.handlers), old(start.isEndOfRoute), httpMethod, handler, r, created)
    ensures Valid(nodes + (set c | c in created))
    ensures r.Pass? ==>
      Follow(nodes + (set c | c in created), walked[0], segments) == Some(if created == [] then start else created[|created| - 1])
  {
    if from < |segments| {
      r, created := RegisterNew(start, segments, from, httpMethod, handler, nodes, walked);
    } else {
      r := RegisterExisting(start, segments, from, httpMethod, handler);
      created := [];
    }
    if r.Pass? {
      FollowAfterRegister(nodes + (set c | c in created), walked, created, segments);
    }
  }

  /** `Register` where the whole route already exists: only the handler check and update remain. */
  method RegisterExisting<T>(start: Node<T>, segments: seq<string>, from: nat, httpMethod: Method, handler: T)
      returns (r: Outcome<InsertError>)
    requires from == |segments|
    modifies start`handlers, start`isEndOfRoute
    ensures r == old(CreateOutcome(start, segments, from, httpMethod))
    ensures Grown(start, old(start.children), segments, from, r, [])
    ensures Marked(start, old(start.handlers), old(start.isEndOfRoute), httpMethod, handler, r, [])
  {
    if httpMethod in start.handlers {
      return Fail(DuplicateMethodHandlersError);
    }
    start.isEndOfRoute := true;
    start.handlers := start.handlers[httpMethod := handler];
    return Pass;
  }

  /** `Register` where some segments are missing: new nodes are created, the last one gets the handler. */
  method RegisterNew<T>(start: Node<T>, segments: seq<string>, from: nat, httpMethod: Method, handler: T,
                        ghost nodes: set<Node<T>>, ghost walked: seq<Node<T>>)
      returns (r: Outcome<InsertError>, ghost created: seq<Node<T>>)
    requires Valid(nodes) && start in nodes
    requires from < |segments| && segments[from] !in start.children
    requires Linked(walked, segments)
    modifies start`children, start`handlers, start`isEndOfRoute
    ensures r == old(CreateOutcome(start, segments, from, httpMethod))
    ensures forall c | c in created :: fresh(c)
    ensures Grown(start, old(start.children), segments, from, r, created)
    ensures Marked(start, old(start.handlers), old(start.isEndOfRoute), httpMethod, handler, r, created)
    ensures Linked(walked, segments)
    ensures Valid(nodes + (set c | c in created))
  {
    var current, err;
    current, err, created := Hang(start, segments, from, nodes, walked);
    r := OutcomeOf(err);
    if err.None? {
      assert created[|created| - 1] in created && Blank(created);
      if httpMethod in current.handlers {
        r := Fail(DuplicateMethodHandlersError);
      } else {
        current.isEndOfRoute := true;
        current.handlers := current.handlers[httpMethod := handler];
      }
    }
  }

  /** A linked path followed by a chain of new nodes hanging off its end is what `Follow` walks. */
  lemma FollowAfterRegister<T>(nodes: set<Node<T>>, walked: seq<Node<T>>, created: seq<Node<T>>, segs: seq<string>)
    requires Valid(nodes) && |walked| >= 1 && walked[0] in nodes
    requires |walked| - 1 + |created| == |segs| && Linked(walked, segs)
    requires created != [] ==>
      segs[|walked| - 1] in walked[|walked| - 1].children && walked[|walked| - 1].children[segs[|walked| - 1]] == created[0]
    requires Chain(created, segs, |walked| - 1)
    ensures Follow(nodes, walked[0], segs) == Some(if created == [] then walked[|walked| - 1] else created[|created| - 1])
  {
    var e0 := |walked| - 1;
    var path := walked + created;
    forall j | 0 <= j < |segs|
      ensures segs[j] in path[j].children && path[j].children[segs[j]] == path[j + 1]
    {
      if j > e0 {
        assert path[j] == created[j - e0 - 1] && path[j + 1] == created[j - e0];
      }
    }
    PathIsFollowed(nodes, path, segs);
  }

  /**
   * `insert(root, route, method, handler)`. The outcome is `InsertResult` of the trie
   * before the call. For `"/"` only the root's handlers change. Any other route is
   * handled by `InsertPath`.
   */
  method Insert<T>(root: Node<T>, route: string, httpMethod: Method, handler: T, ghost nodes: set<Node<T>>)
      returns (r: Outcome<InsertError>, ghost nodes': set<Node<T>>, ghost created: seq<Node<T>>,
               ghost matched: nat, ghost reached: Node<T>,
               ghost kids: map<string, Node<T>>, ghost handlers: map<Method, T>, ghost isEnd: bool)
    requires Valid(nodes) && root in nodes
    modifies nodes
    ensures Valid(nodes') && nodes' == nodes + (set c | c in created) && fresh(nodes' - nodes)
    ensures r == old(InsertResult(nodes, root, route, httpMethod))
    ensures route == "/" ==>
      && created == []
      && unchanged(nodes - {root})
      && root.children == old(root.children)
      && root.routeParamName == old(root.routeParamName)
      && root.routeParamValueType == old(root.routeParamValueType)
      && root.isEndOfRoute == old(root.isEndOfRoute)
      && root.handlers == if r.Pass? then old(root.handlers)[httpMethod := handler] else old(root.handlers)
    ensures route != "/" ==>
      var segs := Segments(route);
      && (matched, reached) == old(Existing(nodes, root, segs))
      && unchanged(nodes - {reached})
      && reached.routeParamName == old(reached.routeParamName)
      && reached.routeParamValueType == old(reached.routeParamValueType)
      && kids == old(reached.children) && handlers == old(reached.handlers) && isEnd == old(reached.isEndOfRoute)
      && Grown(reached, kids, segs, matched, r, created)
      && Marked(reached, handlers, isEnd, httpMethod, handler, r, created)
      && (r.Pass? ==> Follow(nodes', root, segs) == Some(if created == [] then reached else created[|created| - 1]))
    ensures r.Pass? ==>
      && GetResult(nodes', root, route, httpMethod) == Success(Some(MatchedRoute(handler, map[])))
      && InsertResult(nodes', root, route, httpMethod) == Fail(DuplicateMethodHandlersError)
  {
    if route == "/" {
      nodes', created, matched, reached := nodes, [], 0, root;
      kids, handlers, isEnd := root.children, root.handlers, root.isEndOfRoute;
      if httpMethod in root.handlers {
        r := Fail(DuplicateMethodHandlersError);
        return;
      }
      root.handlers := root.handlers[httpMethod := handler];
      r := Pass;
      return;
    }
    r, nodes', created, matched, reached, kids, handlers, isEnd := InsertPath(root, route, httpMethod, handler, nodes);
    if r.Pass? {
      Registered(nodes', root, route, httpMethod, handler);
    }
  }

  /**
   * `insert` of a route other than `"/"`: the loop first walks the existing prefix of
   * the route (`Descend`), then creates the rest and registers the handler
   * (`Register`); once a node is created, every later segment is missing, as a new
   * node has no children.
   */
  method InsertPath<T>(root: Node<T>, route: string, httpMethod: Method, handler: T, ghost nodes: set<Node<T>>)
      returns (r: Outcome<InsertError>, ghost nodes': set<Node<T>>, ghost created: seq<Node<T>>,
               ghost matched: nat, ghost reached: Node<T>,
               ghost kids: map<string, Node<T>>, ghost handlers: map<Method, T>, ghost isEnd: bool)
    requires Valid(nodes) && root in nodes && route != "/"
    modifies nodes
    ensures Valid(nodes') && nodes' == nodes + (set c | c in created) && fresh(nodes' - nodes)
    ensures r == old(InsertResult(nodes, root, route, httpMethod))
    ensures
      var segs := Segments(route);
      && (matched, reached) == old(Existing(nodes, root, segs))
      && unchanged(nodes - {reached})
      && reached.routeParamName == old(reached.routeParamName)
      && reached.routeParamValueType == old(reached.routeParamValueType)
      && kids == old(reached.children) && handlers == old(reached.handlers) && isEnd == old(reached.isEndOfRoute)
      && Grown(reached, kids, segs, matched, r, created)
      && Marked(reached, handlers, isEnd, httpMethod, handler, r, created)
      && (r.Pass? ==> Follow(nodes', root, segs) == Some(if created == [] then reached else created[|created| - 1]))
  {
    ghost var outcome := InsertResult(nodes, root, route, httpMethod);
    var segments, current, i, walked := Descend(root, route, nodes);
    matched, reached := i, current;
    assert outcome == CreateOutcome(current, segments, i, httpMethod);
    kids, handlers, isEnd := current.children, current.handlers, current.isEndOfRoute;
    assert kids == old(current.children) && handlers == old(current.handlers) && isEnd == old(current.isEndOfRoute);
    r, created := Register(current, segments, i, httpMethod, handler, nodes, walked);
    nodes' := nodes + (set c | c in created);

  }

  /**
   * `get(root, route, httpMethod)`: `Success(None)` where the Python function returns
   * `None`, `Failure` where it raises. It reads the trie and changes nothing.
   */
  method Get<T>(root: Node<T>, route: string, httpMethod: Method, ghost nodes: set<Node<T>>)
      returns (r: Result<Option<MatchedRoute<T>>, GetError>)
    requires Valid(nodes) && root in nodes
    ensures r == GetResult(nodes, root, route, httpMethod)
  {
    var current := root;

    if route == "/" {
      if httpMethod !in current.handlers {
        return Success(None);
      }
      return Success(Some(MatchedRoute(current.handlers[httpMethod], map[])));
    }

    var segments := Segments(route);

    var routeParams: RouteParams := map[];

    for i := 0 to |segments|
      invariant current in nodes
      invariant WalkFrom(nodes, root, segments, map[]) == WalkFrom(nodes, current, segments[i..], routeParams)
    {
      var segment := segments[i];
      assert segments[i..][0] == segment && segments[i..][1..] == segments[i + 1..];
      if segment in current.children {
        current := current.children[segment];
        continue;
      }

      // the one parameter child, if any
      if !exists key | key in current.children :: current.children[key].routeParamName != "" {
        assert ParamChild(current).None?;
        return Success(None);
      }
      var childSegment :| childSegment in current.children && current.children[childSegment].routeParamName != "";
      assert IsParamChildKey(current, childSegment) && AtMostOneParamChild(current);
      assert ParamChild(current) == Some(childSegment);
      var childNode := current.children[childSegment];

      match childNode.routeParamValueType {
        case None =>
          return Failure(MissingParamValueType);
        case Some(STRING) =>
          routeParams := routeParams[childNode.routeParamName := Str(segment)];
        case Some(INTEGER) =>
          var parsed := ParseInt(segment);
          if parsed.None? {
            return Failure(RouteParamParseError(segment));
          }
          routeParams := routeParams[childNode.routeParamName := Int(parsed.value)];
      }
      current := childNode;
    }

    if !current.isEndOfRoute {
      return Success(None);
    }
    if httpMethod !in current.handlers {
      return Success(None);
    }
    return Success(Some(MatchedRoute(current.handlers[httpMethod], routeParams)));
  }
}
