/**
  Concrete request sequences from the project's own test suite, stated over the model.
  Each request is dispatched atomically, as one turn of the event loop.
 */
module Scenarios {
  import opened Basics
  import opened JsValues
  import opened BodyCollector
  import opened Expectations
  import opened Registry
  import opened Dispatcher
  import opened Runs
  import opened Builders

  /** The JSON value `{"ok": true}`. */
  const OkBody := Obj([("ok", Bool(true))])

  function Call(verb: string, url: string, body: Body): Request
  {
    Request(verb, url, [], body)
  }

  /** An expectation with only an `accept` that says yes. */
  function AcceptOnly(ref: nat): Expectation
  {
    Expectation(ref, Some((req: Request) => Returned(true)), None, None, None)
  }

  /** Matching an expectation without `respond` answers with the transport's default 200 and no body. */
  lemma AcceptOnlyAnswers200(req: Request)
    ensures Dispatch(Expect(Initial, AcceptOnly(0)), req) == (Initial, Handled(Channel(None, None)))
    ensures Dispatch(Expect(Initial, AcceptOnly(0)), req).1.Status() == 200
    ensures !Dispatch(Expect(Initial, AcceptOnly(0)), req).1.WroteJson()
  {
    var s := Expect(Initial, AcceptOnly(0));
    DispatchFirstAcceptor(s, req, 0);
    assert s.expectations[..0] + s.expectations[1..] == [];
  }

  /** An `accept` that throws answers 500 and leaves the expectation registered. */
  lemma ThrowingAcceptAnswers500(req: Request)
    ensures var e := Expectation(0, Some((r: Request) => Threw), None, None, None);
      && Dispatch(Expect(Initial, e), req) == (Expect(Initial, e), Failed)
      && Dispatch(Expect(Initial, e), req).1.Status() == 500
  {
    var e := Expectation(0, Some((r: Request) => Threw), None, None, None);
    DispatchAcceptThrows(Expect(Initial, e), req, 0);
  }

  /** An `accept` that says no answers 404. */
  lemma RefusingAcceptAnswers404(req: Request)
    ensures var e := Expectation(0, Some((r: Request) => Returned(false)), None, None, None);
      && Dispatch(Expect(Initial, e), req) == (Expect(Initial, e), NotFound)
      && Dispatch(Expect(Initial, e), req).1.Status() == 404
  {
  }

  /** `get('/path', {body: {ok: true}})` answers one GET to /path with 200 and the body, then 404. */
  lemma GetAnswersOnce()
    ensures var spec := Some(ResponseSpec(None, [], Some(OkBody)));
      var reqs := [Call("GET", "/path", Text("")), Call("GET", "/path", Text(""))];
      var (s', os) := Serve(Get(Initial, 0, "/path", spec), reqs);
      && os == [Handled(Channel(Some(Head(200, [])), Some(OkBody))), NotFound]
      && os[0].Status() == 200 && os[1].Status() == 404
      && Validate(s').Passed? && AllExpectationsMatched(s').Passed?
  {
    var spec := Some(ResponseSpec(None, [], Some(OkBody)));
    var reqs := [Call("GET", "/path", Text("")), Call("GET", "/path", Text(""))];
    var s0 := Get(Initial, 0, "/path", spec);
    GetLifecycle(0, "/path", spec, reqs[0]);
    DispatchFirstAcceptor(s0, reqs[0], 0);
    assert Dispatch(s0, reqs[0]) == (Initial, Handled(Channel(Some(Head(200, [])), Some(OkBody))));
    EmptyRegistryNotFound([], reqs[1..]);
  }

  /** A GET to another path is still answered with the configured response, but `validate` then fails. */
  lemma GetWrongPathFailsValidate()
    ensures var spec := Some(ResponseSpec(None, [], Some(OkBody)));
      var (s', o) := Dispatch(Get(Initial, 0, "/path", spec), Call("GET", "/different-path", Text("")));
      && o == Handled(SpecChannel(spec))
      && Validate(s').Raised?
  {
    var spec := Some(ResponseSpec(None, [], Some(OkBody)));
    var req := Call("GET", "/different-path", Text(""));
    GetLifecycle(0, "/path", spec, req);
    DispatchFirstAcceptor(Get(Initial, 0, "/path", spec), req, 0);
  }

  /**
    `post('/path', {body: {ok: true}}, …)` hit by a POST to /path whose body decodes to an
    identical `{ok: true}` is answered, yet `validate` fails afterwards.
   */
  lemma PostIdenticalBodyFailsValidate()
    ensures var spec := Some(ResponseSpec(None, [], Some(OkBody)));
      var (s', o) := Dispatch(Post(Initial, 0, "/path", Some(Some(OkBody)), spec), Call("POST", "/path", Json(OkBody)));
      && o == Handled(SpecChannel(spec))
      && Validate(s').Raised?
  {
    var spec := Some(ResponseSpec(None, [], Some(OkBody)));
    var req := Call("POST", "/path", Json(OkBody));
    PostLifecycle(0, "/path", Some(Some(OkBody)), spec, req);
    PostRejectsStructuredBody(0, "/path", OkBody, spec, req);
    DispatchFirstAcceptor(Post(Initial, 0, "/path", Some(Some(OkBody)), spec), req, 0);
  }

  /**
    A `get` registered behind an expectation that refuses everything answers a GET to /path,
    and it is the entry removed: the refusing one stays registered.
   */
  lemma GetBehindRefusingEntry()
    ensures var refusing := Expectation(0, Some((r: Request) => Returned(false)), None, None, None);
      var spec := Some(ResponseSpec(None, [], Some(OkBody)));
      var s := Get(Expect(Initial, refusing), 1, "/path", spec);
      Dispatch(s, Call("GET", "/path", Text(""))) == (Server([refusing], []), Handled(Channel(Some(Head(200, [])), Some(OkBody))))
  {
    var refusing := Expectation(0, Some((r: Request) => Returned(false)), None, None, None);
    var spec := Some(ResponseSpec(None, [], Some(OkBody)));
    var req := Call("GET", "/path", Text(""));
    var s := Get(Expect(Initial, refusing), 1, "/path", spec);
    GetLifecycle(1, "/path", spec, req);
    DispatchFirstAcceptor(s, req, 1);
    assert s.expectations[..1] + s.expectations[2..] == [refusing];
  }

  /**
    `get('/path', {statusCode: 404, body: {ok: true}})` hit by GET /path: the client sees 404,
    yet the request was matched and answered by the handler, and the entry is consumed.
   */
  lemma HandlerWritten404()
    ensures var spec := Some(ResponseSpec(Some(404), [], Some(OkBody)));
      var (s', o) := Dispatch(Get(Initial, 0, "/path", spec), Call("GET", "/path", Text("")));
      && o == Handled(Channel(Some(Head(404, [])), Some(OkBody)))
      && o.Status() == 404 && !o.NotFound?
      && s' == Initial
  {
    var spec := Some(ResponseSpec(Some(404), [], Some(OkBody)));
    var req := Call("GET", "/path", Text(""));
    GetLifecycle(0, "/path", spec, req);
    DispatchFirstAcceptor(Get(Initial, 0, "/path", spec), req, 0);
  }

  /** `get('/path', {statusCode: 42})`: `writeHead` refuses the status, so every GET answers 500 and the expectation stays. */
  lemma GetBadStatusAnswers500()
    ensures var spec := Some(ResponseSpec(Some(42), [], None));
      var s := Get(Initial, 0, "/path", spec);
      var req := Call("GET", "/path", Text(""));
      && Dispatch(s, req) == (s, Failed)
      && AllExpectationsMatched(Dispatch(s, req).0).Raised?
  {
    var spec := Some(ResponseSpec(Some(42), [], None));
    var req := Call("GET", "/path", Text(""));
    GetLifecycle(0, "/path", spec, req);
    DispatchFirstAcceptor(Get(Initial, 0, "/path", spec), req, 0);
  }

  /** `get('/path')` without a `responseSpec`: reading its `statusCode` throws, so the request is answered 500. */
  lemma GetWithoutSpecAnswers500()
    ensures var s := Get(Initial, 0, "/path", None);
      var req := Call("GET", "/path", Text(""));
      Dispatch(s, req) == (s, Failed)
  {
    var req := Call("GET", "/path", Text(""));
    GetLifecycle(0, "/path", None, req);
    DispatchFirstAcceptor(Get(Initial, 0, "/path", None), req, 0);
  }

  /** `post('/path')` without `incomingExpectation`: a POST to /path makes `valid` throw, answering 500 with no error recorded. */
  lemma PostWithoutIncomingAnswers500()
    ensures var spec := Some(ResponseSpec(None, [], Some(OkBody)));
      var s := Post(Initial, 0, "/path", None, spec);
      var req := Call("POST", "/path", Json(OkBody));
      && Dispatch(s, req) == (s, Failed)
      && Validate(Dispatch(s, req).0).Passed?
  {
    var spec := Some(ResponseSpec(None, [], Some(OkBody)));
    var req := Call("POST", "/path", Json(OkBody));
    PostLifecycle(0, "/path", None, spec, req);
    DispatchFirstAcceptor(Post(Initial, 0, "/path", None, spec), req, 0);
  }

  /** An expectation whose `respond` returns `{"seq": n}`. */
  function Numbered(ref: nat, n: int): Expectation
  {
    Expectation(ref, Some((req: Request) => Returned(true)), None,
      Some((req: Request) => Returned(Reaction(None, Some(Obj([("seq", Num(n))]))))), None)
  }

  /** Two always-accepting expectations answer two requests in the order they were registered. */
  lemma AnsweredInRegistrationOrder(r1: Request, r2: Request)
    ensures var s := Expect(Expect(Initial, Numbered(0, 1)), Numbered(1, 2));
      Serve(s, [r1, r2]).1 == [Handled(Channel(None, Some(Obj([("seq", Num(1))])))),
                               Handled(Channel(None, Some(Obj([("seq", Num(2))]))))]
  {
    var xs := [Numbered(0, 1), Numbered(1, 2)];
    assert Expect(Expect(Initial, Numbered(0, 1)), Numbered(1, 2)) == Server(xs, []);
    OneShotsAnswerInOrder(xs, [], [r1, r2]);
  }

  /** An expectation answering `{"ok": true}` whose `repeat` returns `keep`. */
  function WithRepeat(ref: nat, keep: bool): Expectation
  {
    Expectation(ref, Some((req: Request) => Returned(true)), None,
      Some((req: Request) => Returned(Reaction(None, Some(OkBody)))),
      Some((ch: Channel) => Returned(keep)))
  }

  /** `repeat` returning true keeps answering, and the expectation stays pending. */
  lemma RepeatTrueKeepsAnswering(r1: Request, r2: Request)
    ensures var (s', os) := Serve(Expect(Initial, WithRepeat(0, true)), [r1, r2]);
      && os == [Handled(Channel(None, Some(OkBody))), Handled(Channel(None, Some(OkBody)))]
      && os[1].Status() == 200
      && AllExpectationsMatched(s').Raised?
  {
    assert Expect(Initial, WithRepeat(0, true)) == Server([WithRepeat(0, true)] + [], []);
    RepeatingAnswersEvery(WithRepeat(0, true), [], [], [r1, r2]);
  }

  /** `repeat` returning false removes the expectation: the second request gets 404 and nothing is pending. */
  lemma RepeatFalseRemoves(r1: Request, r2: Request)
    ensures var (s', os) := Serve(Expect(Initial, WithRepeat(0, false)), [r1, r2]);
      && os == [Handled(Channel(None, Some(OkBody))), NotFound]
      && os[1].Status() == 404
      && AllExpectationsMatched(s').Passed?
  {
    var xs := [WithRepeat(0, false)];
    assert Expect(Initial, WithRepeat(0, false)) == Server(xs, []);
    OneShotsAnswerInOrder(xs, [], [r1, r2]);
    OneShotsConsumed(xs, [], [r1, r2]);
  }

  /**
    A failed validity check followed by a throwing `respond`: the answer is 500, the
    expectation stays registered, but the recorded error stays in the log.
   */
  lemma InvalidThenThrowKeepsError(req: Request)
    ensures var e := Expectation(0, Some((r: Request) => Returned(true)), Some((r: Request) => Returned(false)),
                                 Some((r: Request) => Threw), None);
      Dispatch(Expect(Initial, e), req) == (Server([e], [e]), Failed)
  {
    var e := Expectation(0, Some((r: Request) => Returned(true)), Some((r: Request) => Returned(false)),
                         Some((r: Request) => Threw), None);
    DispatchFirstAcceptor(Expect(Initial, e), req, 0);
  }
}
