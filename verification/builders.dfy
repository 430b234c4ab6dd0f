/**
  The convenience builders `get` and `post`. Each registers one expectation that accepts
  every request, answers with a fixed status, headers and body, has no `repeat` (so it is
  one-shot), and puts the real matching criteria into `valid`: a mismatching request is
  still answered, and the mismatch only shows up later through `validate`. When writing the
  configured head throws (an omitted `responseSpec`, a status or a header Node's `writeHead`
  refuses), every request is answered 500 and the expectation is never consumed.
 */
module Builders {
  import opened Basics
  import opened JsValues
  import opened BodyCollector
  import opened Expectations
  import opened Registry
  import opened Dispatcher
  import opened Runs

  /** The `responseSpec` argument. An undefined `headers` is modelled as no headers. */
  datatype ResponseSpec = ResponseSpec(statusCode: Option<int>, headers: Headers, body: Option<Value>)

  /** `responseSpec.statusCode || 200`: an undefined or zero status code falls back to 200. */
  function SpecStatus(spec: ResponseSpec): (status: int)
    ensures status != 0
    ensures spec.statusCode.Some? && spec.statusCode.value != 0 ==> status == spec.statusCode.value
    ensures spec.statusCode.None? || spec.statusCode.value == 0 ==> status == 200
  {
    if spec.statusCode.None? || spec.statusCode.value == 0 then 200 else spec.statusCode.value
  }

  /** `x | 0`: JavaScript's conversion of an integer to a signed 32-bit integer. */
  function ToInt32(x: int): (r: int)
    ensures -0x8000_0000 <= r < 0x8000_0000
    ensures (x - r) % 0x1_0000_0000 == 0
    ensures -0x8000_0000 <= x < 0x8000_0000 ==> r == x
  {
    var m := x % 0x1_0000_0000;
    if m >= 0x8000_0000 then m - 0x1_0000_0000 else m
  }

  /** A character of an HTTP token, as Node checks header names. */
  predicate TokenChar(c: char)
  {
    || 'a' <= c <= 'z' || 'A' <= c <= 'Z' || '0' <= c <= '9'
    || c in "^_`-!#$%&'*+.|~"
  }

  /** A character Node accepts in a header value: tab, visible ASCII, space, or 0x80..0xFF. */
  predicate ValueChar(c: char)
  {
    c == '\t' || ' ' <= c <= '~' || 0x80 <= c as int <= 0xFF
  }

  /** Every header name is a non-empty token and every value holds only acceptable characters. */
  predicate ValidHeaders(hs: Headers)
  {
    forall i :: 0 <= i < |hs| ==>
      && |hs[i].0| > 0
      && (forall j :: 0 <= j < |hs[i].0| ==> TokenChar(hs[i].0[j]))
      && (forall j :: 0 <= j < |hs[i].1| ==> ValueChar(hs[i].1[j]))
  }

  /**
    `res.writeHead(status, headers)` in Node: the status is truncated to 32 bits and must
    then lie in 100..999, and every header must be well-formed; otherwise it throws.
   */
  function WriteHead(status: int, headers: Headers): (r: Attempt<Head>)
    ensures r.Returned? <==> 100 <= ToInt32(status) <= 999 && ValidHeaders(headers)
    ensures r.Returned? ==> r.value == Head(ToInt32(status), headers)
    ensures 100 <= status <= 999 && ValidHeaders(headers) ==> r == Returned(Head(status, headers))
  {
    var code := ToInt32(status);
    if 100 <= code <= 999 && ValidHeaders(headers) then Returned(Head(code, headers)) else Threw
  }

  /**
    Whether a builder can write its configured head: `responseSpec` was given (reading
    `statusCode` of `undefined` throws) and `writeHead` accepts its status and headers.
   */
  predicate Sendable(spec: Option<ResponseSpec>)
  {
    spec.Some? && WriteHead(SpecStatus(spec.value), spec.value.headers).Returned?
  }

  /** The shared `respond` of both builders: write the head, return the body. */
  function Reply(spec: Option<ResponseSpec>): Request -> Attempt<Reaction>
  {
    req =>
      if spec.None? then Threw
      else match WriteHead(SpecStatus(spec.value), spec.value.headers)
        case Threw => Threw
        case Returned(h) => Returned(Reaction(Some(h), spec.value.body))
  }

  /** The response a builder's expectation sends when its head can be written. */
  function SpecChannel(spec: Option<ResponseSpec>): (ch: Channel)
    requires Sendable(spec)
    ensures ch.json == spec.value.body
    ensures ch.head == Some(Head(ToInt32(SpecStatus(spec.value)), spec.value.headers))
    ensures ChannelStatus(ch) == ToInt32(SpecStatus(spec.value))
    ensures 100 <= SpecStatus(spec.value) <= 999 ==> ChannelStatus(ch) == SpecStatus(spec.value)
  {
    Channel(Some(WriteHead(SpecStatus(spec.value), spec.value.headers).value), spec.value.body)
  }

  /** The collected body as a JavaScript value: raw text is a string. */
  function AsValue(b: Body): Value
  {
    match b
    case Json(v) => v
    case Text(t) => Str(t)
  }

  /**
    `req.body === expected`, where `req.body` was just produced by the body collector and
    `expected` is a value the test built (`None` for `undefined`). The collector builds new
    arrays and objects, which are never the same reference as one built earlier.
   */
  function StrictEquals(body: Body, expected: Option<Value>): bool
  {
    match expected
    case None => false
    case Some(w) =>
      match body
      case Text(t) => w == Str(t)
      case Json(v) => IsPrimitive(v) && v == w
  }

  /** Strict equality holds exactly for equal primitive values; it is never true of an array or object. */
  lemma StrictEqualsMeaning(body: Body, expected: Option<Value>)
    ensures StrictEquals(body, expected) <==>
      expected.Some? && AsValue(body) == expected.value && IsPrimitive(expected.value)
  {
  }

  function GetExpectation(ref: nat, path: string, spec: Option<ResponseSpec>): Expectation
  {
    Expectation(
      ref,
      Some((req: Request) => Returned(true)),
      Some((req: Request) => Returned(req.url == path && req.httpMethod == "GET")),
      Some(Reply(spec)),
      None)
  }

  /**
    Whether a POST to `path` matches. `incoming` is the `incomingExpectation` argument:
    `None` when it was omitted, otherwise its `body` field. Reading that field of `undefined`
    throws, but only once url and method have matched.
   */
  function PostValid(path: string, incoming: Option<Option<Value>>, req: Request): Attempt<bool>
  {
    if !(req.url == path && req.httpMethod == "POST") then Returned(false)
    else if incoming.None? then Threw
    else Returned(StrictEquals(req.body, incoming.value))
  }

  function PostExpectation(ref: nat, path: string, incoming: Option<Option<Value>>, spec: Option<ResponseSpec>): Expectation
  {
    Expectation(
      ref,
      Some((req: Request) => Returned(true)),
      Some((req: Request) => PostValid(path, incoming, req)),
      Some(Reply(spec)),
      None)
  }

  /**
    A `get` expectation accepts every request and records an error exactly when the request
    is not a GET to `path`. With a sendable spec it answers with the configured response and
    is removed; otherwise `respond` throws, so it answers 500 and stays registered.
   */
  lemma GetLifecycle(ref: nat, path: string, spec: Option<ResponseSpec>, req: Request)
    ensures AcceptVerdict(GetExpectation(ref, path, spec), req) == Returned(true)
    ensures Sendable(spec) ==>
      RunLifecycle(GetExpectation(ref, path, spec), req)
        == Completed(!(req.url == path && req.httpMethod == "GET"), SpecChannel(spec), false)
    ensures !Sendable(spec) ==>
      RunLifecycle(GetExpectation(ref, path, spec), req)
        == Crashed(!(req.url == path && req.httpMethod == "GET"))
  {
  }

  /**
    A `post` expectation accepts every request. A POST to `path` with no
    `incomingExpectation` crashes before anything is recorded. Otherwise it records an error
    unless the request is a POST to `path` with a strictly equal body, and then answers like
    `get`: the configured response and removal, or 500 and no removal.
   */
  lemma PostLifecycle(ref: nat, path: string, incoming: Option<Option<Value>>, spec: Option<ResponseSpec>, req: Request)
    ensures AcceptVerdict(PostExpectation(ref, path, incoming, spec), req) == Returned(true)
    ensures req.url == path && req.httpMethod == "POST" && incoming.None? ==>
      RunLifecycle(PostExpectation(ref, path, incoming, spec), req) == Crashed(false)
    ensures !(req.url == path && req.httpMethod == "POST") || incoming.Some? ==>
      var invalid := !(req.url == path && req.httpMethod == "POST" && StrictEquals(req.body, incoming.value));
      RunLifecycle(PostExpectation(ref, path, incoming, spec), req)
        == if Sendable(spec) then Completed(invalid, SpecChannel(spec), false) else Crashed(invalid)
  {
  }

  /** With a sendable spec both builders produce one-shot expectations (for `post`, once `incomingExpectation` is given). */
  lemma BuildersOneShot(ref: nat, path: string, incoming: Option<Option<Value>>, spec: Option<ResponseSpec>)
    requires Sendable(spec)
    ensures OneShot(GetExpectation(ref, path, spec))
    ensures incoming.Some? ==> OneShot(PostExpectation(ref, path, incoming, spec))
  {
    forall req
      ensures RunLifecycle(GetExpectation(ref, path, spec), req).Completed?
      ensures !RunLifecycle(GetExpectation(ref, path, spec), req).keep
      ensures incoming.Some? ==> RunLifecycle(PostExpectation(ref, path, incoming, spec), req).Completed?
      ensures incoming.Some? ==> !RunLifecycle(PostExpectation(ref, path, incoming, spec), req).keep
    {
      GetLifecycle(ref, path, spec, req);
      PostLifecycle(ref, path, incoming, spec, req);
    }
  }

  /**
    `get(path, responseSpec)`, with `ref` the identity of the new expectation object, which
    no registered object shares since `get` builds a fresh object literal, and `spec` the
    `responseSpec` argument (`None` when omitted). One expectation is appended. It
    records an error unless the request is a GET to `path`. With a sendable spec it is
    one-shot and answers with the configured response; otherwise it answers 500.
   */
  function Get(s: Server, ref: nat, path: string, spec: Option<ResponseSpec>): (s': Server)
    requires forall j :: 0 <= j < |s.expectations| ==> s.expectations[j].ref != ref
    ensures |s'.expectations| == |s.expectations| + 1
    ensures s'.expectations[..|s.expectations|] == s.expectations
    ensures s'.errors == s.errors
    ensures s'.expectations[|s.expectations|].ref == ref
    ensures Coherent(s.expectations) ==> Coherent(s'.expectations)
    ensures Sendable(spec) ==> OneShot(s'.expectations[|s.expectations|])
    ensures forall req ::
      Answer(RunLifecycle(s'.expectations[|s.expectations|], req))
        == if Sendable(spec) then Handled(SpecChannel(spec)) else Failed
    ensures forall req ::
      RunLifecycle(s'.expectations[|s.expectations|], req).invalid <==> !(req.url == path && req.httpMethod == "GET")
  {
    if Sendable(spec) then BuildersOneShot(ref, path, None, spec); Expect(s, GetExpectation(ref, path, spec))
    else Expect(s, GetExpectation(ref, path, spec))
  }

  /**
    `post(path, incomingExpectation, responseSpec)`, with `ref` the fresh identity of the new
    object, as for `get`. One expectation is appended. A POST to
    `path` without `incomingExpectation` answers 500 and records nothing. Any other request
    records an error unless it is a POST to `path` with a strictly equal body, and is
    answered with the configured response when the spec is sendable, or 500 otherwise.
   */
  function Post(s: Server, ref: nat, path: string, incoming: Option<Option<Value>>, spec: Option<ResponseSpec>): (s': Server)
    requires forall j :: 0 <= j < |s.expectations| ==> s.expectations[j].ref != ref
    ensures |s'.expectations| == |s.expectations| + 1
    ensures s'.expectations[..|s.expectations|] == s.expectations
    ensures s'.errors == s.errors
    ensures s'.expectations[|s.expectations|].ref == ref
    ensures Coherent(s.expectations) ==> Coherent(s'.expectations)
    ensures Sendable(spec) && incoming.Some? ==> OneShot(s'.expectations[|s.expectations|])
    ensures forall req ::
      Answer(RunLifecycle(s'.expectations[|s.expectations|], req))
        == if !Sendable(spec) || (req.url == path && req.httpMethod == "POST" && incoming.None?) then Failed
           else Handled(SpecChannel(spec))
    ensures forall req ::
      (RunLifecycle(s'.expectations[|s.expectations|], req).invalid
       <==> if req.url == path && req.httpMethod == "POST"
            then incoming.Some? && !StrictEquals(req.body, incoming.value)
            else true)
  {
    if Sendable(spec) then BuildersOneShot(ref, path, incoming, spec); Expect(s, PostExpectation(ref, path, incoming, spec))
    else Expect(s, PostExpectation(ref, path, incoming, spec))
  }

  /**
    A `post` whose expected body is an array or object can never be satisfied by a posted
    body: the posted JSON is decoded into a fresh value, so even a structurally identical
    body leaves an error behind.
   */
  lemma PostRejectsStructuredBody(ref: nat, path: string, v: Value, spec: Option<ResponseSpec>, req: Request)
    requires !IsPrimitive(v)
    ensures RunLifecycle(PostExpectation(ref, path, Some(Some(v)), spec), req).invalid
  {
    StrictEqualsMeaning(req.body, Some(v));
  }
}
