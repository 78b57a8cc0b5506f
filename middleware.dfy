/**
 * volt/middleware.py: wrapping a handler in middlewares, and the built-in `htmx`
 * middleware that reads the htmx request headers.
 *
 * Handlers are application code, so a handler is modelled by its shape: the
 * endpoint the application registered and the middlewares wrapped around it. A
 * request entering a handler passes through its layers outermost first and ends in
 * the endpoint.
 */
module Middleware {
  import opened Wrappers
  import opened Ascii
  import opened Http

  /** A middleware function: volt's own `htmx`, or one the application registered. */
  datatype Middleware = Htmx | Custom(id: nat)

  /** A handler: the registered endpoint, or a middleware wrapped around an inner handler. */
  datatype Handler<H> = Endpoint(endpoint: H) | Wrapped(middleware: Middleware, inner: Handler<H>)

  /** The middlewares a request passes through, outermost first. */
  function Layers<H>(h: Handler<H>): seq<Middleware>
  {
    match h
    case Endpoint(_) => []
    case Wrapped(m, inner) => [m] + Layers(inner)
  }

  /** The endpoint a request reaches once every layer has passed it on. */
  function Core<H>(h: Handler<H>): H
  {
    match h
    case Endpoint(e) => e
    case Wrapped(_, inner) => Core(inner)
  }

  /**
   * `wrap_middleware(middleware, handler)`: a handler that hands each request, with
   * the inner handler, to the middleware; the middleware becomes the outermost layer.
   */
  function WrapMiddleware<H>(m: Middleware, h: Handler<H>): (w: Handler<H>)
    ensures Layers(w) == [m] + Layers(h)
    ensures Core(w) == Core(h)
  {
    Wrapped(m, h)
  }

  /** The stack with the first listed middleware outermost, defined by recursion on the list. */
  function Stack<H>(h: Handler<H>, middlewares: seq<Middleware>): Handler<H>
  {
    if middlewares == [] then h else WrapMiddleware(middlewares[0], Stack(h, middlewares[1..]))
  }

  /**
   * `create_middleware_stack(handler, *middlewares)`: wraps the handler in the
   * middlewares from the last to the first, so the first listed one runs first.
   */
  method CreateMiddlewareStack<H>(handler: Handler<H>, middlewares: seq<Middleware>) returns (stacked: Handler<H>)
    ensures stacked == Stack(handler, middlewares)
    ensures Layers(stacked) == middlewares + Layers(handler)
    ensures Core(stacked) == Core(handler)
    ensures middlewares == [] ==> stacked == handler
  {
    stacked := handler;
    var i := |middlewares|;
    while i > 0
      invariant 0 <= i <= |middlewares|
      invariant stacked == Stack(handler, middlewares[i..])
    {
      i := i - 1;
      assert middlewares[i..][1..] == middlewares[i + 1..];
      stacked := WrapMiddleware(middlewares[i], stacked);
    }
    StackLayers(handler, middlewares);
  }

  /** A stack runs its middlewares in list order, then the handler's own layers, then its endpoint. */
  lemma {:induction false} StackLayers<H>(h: Handler<H>, middlewares: seq<Middleware>)
    ensures Layers(Stack(h, middlewares)) == middlewares + Layers(h)
    ensures Core(Stack(h, middlewares)) == Core(h)
  {
    if middlewares != [] {
      StackLayers(h, middlewares[1..]);
      assert [middlewares[0]] + middlewares[1..] == middlewares;
    }
  }

  /**
   * Stacking in two rounds equals stacking once: wrapping a stack built from `inner`
   * in `outer` gives the stack of `outer + inner`.
   */
  lemma {:induction false} StackConcat<H>(h: Handler<H>, outer: seq<Middleware>, inner: seq<Middleware>)
    ensures Stack(Stack(h, inner), outer) == Stack(h, outer + inner)
  {
    if outer != [] {
      StackConcat(h, outer[1..], inner);
      assert (outer + inner)[0] == outer[0];
      assert (outer + inner)[1..] == outer[1..] + inner;
    } else {
      assert outer + inner == inner;
    }
  }

  /** `header.name.lower() == "hx-request" and header.value.lower() == "true"`. */
  predicate IsHxRequestTrue(h: Header)
  {
    Lower(h.name) == "hx-request" && Lower(h.value) == "true"
  }

  /** `header.name.lower() == "hx-fragment"`. */
  predicate IsHxFragment(h: Header)
  {
    Lower(h.name) == "hx-fragment"
  }

  /** `hx_request` after the headers are scanned in order, starting from `prior`. */
  function HxRequestAfter(headers: seq<Header>, prior: bool): bool
  {
    if headers == [] then prior
    else HxRequestAfter(headers[..|headers| - 1], prior) || IsHxRequestTrue(headers[|headers| - 1])
  }

  /** `hx_fragment` after the headers are scanned in order, starting from `prior`. */
  function HxFragmentAfter(headers: seq<Header>, prior: Option<string>): Option<string>
  {
    if headers == [] then prior
    else if IsHxFragment(headers[|headers| - 1]) then Some(headers[|headers| - 1].value)
    else HxFragmentAfter(headers[..|headers| - 1], prior)
  }

  /** The scan sets `hx_request` exactly when it was set already or some header asks for it. */
  lemma {:induction false} HxRequestAfterIff(headers: seq<Header>, prior: bool)
    ensures HxRequestAfter(headers, prior) <==>
      prior || exists i :: 0 <= i < |headers| && IsHxRequestTrue(headers[i])
  {
    if headers != [] {
      var front := headers[..|headers| - 1];
      HxRequestAfterIff(front, prior);
      if exists i :: 0 <= i < |front| && IsHxRequestTrue(front[i]) {
        var i :| 0 <= i < |front| && IsHxRequestTrue(front[i]);
        assert headers[i] == front[i];
      }
      if exists i :: 0 <= i < |headers| && IsHxRequestTrue(headers[i]) {
        var i :| 0 <= i < |headers| && IsHxRequestTrue(headers[i]);
        if i < |front| {
          assert front[i] == headers[i];
        }
      }
    }
  }

  /** Without an `hx-fragment` header the scan leaves `hx_fragment` as it was. */
  lemma {:induction false} HxFragmentAfterNone(headers: seq<Header>, prior: Option<string>)
    requires forall i :: 0 <= i < |headers| ==> !IsHxFragment(headers[i])
    ensures HxFragmentAfter(headers, prior) == prior
  {
    if headers != [] {
      var front := headers[..|headers| - 1];
      assert forall i :: 0 <= i < |front| ==> front[i] == headers[i];
      HxFragmentAfterNone(front, prior);
    }
  }

  /** With `hx-fragment` headers the scan sets `hx_fragment` to the value of the last one. */
  lemma {:induction false} HxFragmentAfterIsLast(headers: seq<Header>, prior: Option<string>, k: nat)
    requires k < |headers| && IsHxFragment(headers[k])
    ensures exists i ::
      && k <= i < |headers| && IsHxFragment(headers[i])
      && HxFragmentAfter(headers, prior) == Some(headers[i].value)
      && forall j :: i < j < |headers| ==> !IsHxFragment(headers[j])
  {
    var last := |headers| - 1;
    if !IsHxFragment(headers[last]) {
      var front := headers[..last];
      assert front[k] == headers[k];
      HxFragmentAfterIsLast(front, prior, k);
      var i :| && k <= i < |front| && IsHxFragment(front[i])
               && HxFragmentAfter(front, prior) == Some(front[i].value)
               && forall j :: i < j < |front| ==> !IsHxFragment(front[j]);
      forall j | i < j < |headers|
        ensures !IsHxFragment(headers[j])
      {
        if j < last {
          assert front[j] == headers[j];
        }
      }
      assert front[i] == headers[i];
    }
  }

  /**
   * `htmx(request, handler)`: scans the request's headers in order, setting
   * `hx_request` on an `hx-request: true` header (never clearing it) and `hx_fragment`
   * to the value of each `hx-fragment` header, names and the `true` compared without
   * regard to case. It then calls `handler` once with the same request object;
   * `next` and `passed` are that call's handler and argument.
   */
  method HtmxMiddleware<H>(request: HttpRequest, handler: Handler<H>) returns (next: Handler<H>, passed: HttpRequest)
    modifies request`hxRequest, request`hxFragment
    ensures request.hxRequest == HxRequestAfter(request.headers, old(request.hxRequest))
    ensures request.hxFragment == HxFragmentAfter(request.headers, old(request.hxFragment))
    ensures next == handler && passed == request
  {
    for i := 0 to |request.headers|
      invariant request.hxRequest == HxRequestAfter(request.headers[..i], old(request.hxRequest))
      invariant request.hxFragment == HxFragmentAfter(request.headers[..i], old(request.hxFragment))
    {
      var header := request.headers[i];
      assert request.headers[..i + 1][..i] == request.headers[..i];
      if IsHxRequestTrue(header) {
        request.hxRequest := true;
      }
      if IsHxFragment(header) {
        request.hxFragment := Some(header.value);
      }
    }
    assert request.headers[..|request.headers|] == request.headers;
    next, passed := handler, request;
  }
}
