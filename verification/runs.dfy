/**
  Properties of a server over a sequence of requests, each dispatched atomically in turn:
  registration order is matching priority, one-shot expectations answer once each in order,
  repeating expectations stay registered, and the error log never shrinks.
 */
module Runs {
  import opened Basics
  import opened Expectations
  import opened Registry
  import opened Dispatcher

  /** Dispatches `reqs` one after another, collecting the outcomes. */
  function Serve(s: Server, reqs: seq<Request>): (r: (Server, seq<Outcome>))
    ensures |r.1| == |reqs|
    ensures s.errors <= r.0.errors
    ensures |r.0.expectations| <= |s.expectations|
    decreases |reqs|
  {
    if |reqs| == 0 then (s, [])
    else
      var (s1, o) := Dispatch(s, reqs[0]);
      var (s2, os) := Serve(s1, reqs[1..]);
      (s2, [o] + os)
  }

  /** `accept` is present and returns true for every request. */
  ghost predicate AcceptsAll(e: Expectation)
  {
    forall req :: AcceptVerdict(e, req) == Returned(true)
  }

  /** Accepts everything, never throws, and is removed after each match. */
  ghost predicate OneShot(e: Expectation)
  {
    && AcceptsAll(e)
    && forall req :: RunLifecycle(e, req).Completed? && !RunLifecycle(e, req).keep
  }

  /** Accepts everything, never throws, and `repeat` always keeps it. */
  ghost predicate Repeating(e: Expectation)
  {
    && AcceptsAll(e)
    && forall req :: RunLifecycle(e, req).Completed? && RunLifecycle(e, req).keep
  }

  /** The expectations that answer `reqs` one by one and fail their validity check on it, in order. */
  ghost function Rejected(xs: seq<Expectation>, reqs: seq<Request>): seq<Expectation>
    decreases |reqs|
  {
    if |xs| == 0 || |reqs| == 0 then []
    else (if RunLifecycle(xs[0], reqs[0]).invalid then [xs[0]] else []) + Rejected(xs[1..], reqs[1..])
  }

  function Min(a: nat, b: nat): nat
  {
    if a < b then a else b
  }

  /** With nothing registered, every request is answered 404 and nothing changes. */
  lemma {:induction false} EmptyRegistryNotFound(errs: seq<Expectation>, reqs: seq<Request>)
    ensures Serve(Server([], errs), reqs).0 == Server([], errs)
    ensures forall k :: 0 <= k < |reqs| ==> Serve(Server([], errs), reqs).1[k] == NotFound
    decreases |reqs|
  {
    if |reqs| > 0 {
      EmptyRegistryNotFound(errs, reqs[1..]);
    }
  }

  /** `e` takes `req`, answers it without throwing, and asks to be removed. */
  ghost predicate OneShotFor(e: Expectation, req: Request)
  {
    && AcceptVerdict(e, req) == Returned(true)
    && RunLifecycle(e, req).Completed?
    && !RunLifecycle(e, req).keep
  }

  /** A one-shot expectation at the front answers the request and is the entry removed. */
  lemma OneShotFront(xs: seq<Expectation>, errs: seq<Expectation>, req: Request)
    requires |xs| > 0 && OneShotFor(xs[0], req)
    ensures var l := RunLifecycle(xs[0], req);
      Dispatch(Server(xs, errs), req) == (Server(xs[1..], errs + (if l.invalid then [xs[0]] else [])), Answer(l))
  {
    assert Scan(xs, req) == Matched(0);
    assert FindIndex(xs, xs[0].ref) == 0;
    assert RemoveByIdentity(xs, xs[0]) == xs[1..];
  }

  /** Serving requests to a one-shot front entry: it answers the first, the rest go to the remaining entries. */
  lemma OneShotServeStep(xs: seq<Expectation>, errs: seq<Expectation>, reqs: seq<Request>)
    requires |xs| > 0 && |reqs| > 0 && OneShotFor(xs[0], reqs[0])
    ensures var l := RunLifecycle(xs[0], reqs[0]);
      var rest := Serve(Server(xs[1..], errs + (if l.invalid then [xs[0]] else [])), reqs[1..]);
      && Serve(Server(xs, errs), reqs).0 == rest.0
      && Serve(Server(xs, errs), reqs).1 == [Answer(l)] + rest.1
  {
    OneShotFront(xs, errs, reqs[0]);
  }

  /**
    After N one-shot expectations have answered, exactly the ones not yet used remain, in
    order, and the error log has gained exactly those whose validity check failed, in the
    order they answered.
   */
  lemma {:induction false} OneShotsConsumed(xs: seq<Expectation>, errs: seq<Expectation>, reqs: seq<Request>)
    requires forall k :: 0 <= k < |xs| && k < |reqs| ==> OneShotFor(xs[k], reqs[k])
    ensures Serve(Server(xs, errs), reqs).0 == Server(xs[Min(|reqs|, |xs|)..], errs + Rejected(xs, reqs))
    decreases |reqs|
  {
    if |reqs| == 0 {
    } else if |xs| == 0 {
      EmptyRegistryNotFound(errs, reqs);
    } else {
      var bad := if RunLifecycle(xs[0], reqs[0]).invalid then [xs[0]] else [];
      OneShotsTail(xs, reqs);
      OneShotsConsumed(xs[1..], errs + bad, reqs[1..]);
      ConsumedInduct(xs, errs, reqs);
    }
  }

  /** Inductive step of the lemma above, given its conclusion for the remaining entries and requests. */
  lemma ConsumedInduct(xs: seq<Expectation>, errs: seq<Expectation>, reqs: seq<Request>)
    requires |xs| > 0 && |reqs| > 0 && OneShotFor(xs[0], reqs[0])
    requires var bad := if RunLifecycle(xs[0], reqs[0]).invalid then [xs[0]] else [];
      Serve(Server(xs[1..], errs + bad), reqs[1..]).0
        == Server(xs[1..][Min(|reqs| - 1, |xs| - 1)..], errs + bad + Rejected(xs[1..], reqs[1..]))
    ensures Serve(Server(xs, errs), reqs).0 == Server(xs[Min(|reqs|, |xs|)..], errs + Rejected(xs, reqs))
  {
    OneShotServeStep(xs, errs, reqs);
    ConsumedStep(xs, errs, reqs);
  }

  /**
    `allExpectationsMatched` after one-shot expectations have been served passes exactly when
    there were at least as many requests as expectations, and otherwise names the unused
    ones, in registration order.
   */
  lemma OneShotsAllMatched(xs: seq<Expectation>, errs: seq<Expectation>, reqs: seq<Request>)
    requires forall k :: 0 <= k < |xs| && k < |reqs| ==> OneShotFor(xs[k], reqs[k])
    ensures AllExpectationsMatched(Serve(Server(xs, errs), reqs).0).Passed? <==> |reqs| >= |xs|
    ensures |reqs| < |xs| ==> AllExpectationsMatched(Serve(Server(xs, errs), reqs).0) == Raised(xs[|reqs|..])
  {
    OneShotsConsumed(xs, errs, reqs);
  }

  /**
    N one-shot expectations answer the first N requests in registration order, each with its
    own lifecycle, and every later request gets 404.
   */
  lemma {:induction false} OneShotsAnswerInOrder(xs: seq<Expectation>, errs: seq<Expectation>, reqs: seq<Request>)
    requires forall k :: 0 <= k < |xs| && k < |reqs| ==> OneShotFor(xs[k], reqs[k])
    ensures forall k :: 0 <= k < |reqs| ==>
      Serve(Server(xs, errs), reqs).1[k] == if k < |xs| then Answer(RunLifecycle(xs[k], reqs[k])) else NotFound
    decreases |reqs|
  {
    if |reqs| == 0 {
    } else if |xs| == 0 {
      EmptyRegistryNotFound(errs, reqs);
    } else {
      var l := RunLifecycle(xs[0], reqs[0]);
      var errs1 := errs + (if l.invalid then [xs[0]] else []);
      OneShotServeStep(xs, errs, reqs);
      OneShotsTail(xs, reqs);
      OneShotsAnswerInOrder(xs[1..], errs1, reqs[1..]);
      var ts := Serve(Server(xs[1..], errs1), reqs[1..]).1;
      ShiftAnswers(xs, reqs, Answer(l), ts);
    }
  }

  /** Bookkeeping step of the induction above: the remaining entries and the error log after the first answer. */
  lemma ConsumedStep(xs: seq<Expectation>, errs: seq<Expectation>, reqs: seq<Request>)
    requires |xs| > 0 && |reqs| > 0
    ensures var bad := if RunLifecycle(xs[0], reqs[0]).invalid then [xs[0]] else [];
      Server(xs[1..][Min(|reqs| - 1, |xs| - 1)..], errs + bad + Rejected(xs[1..], reqs[1..]))
        == Server(xs[Min(|reqs|, |xs|)..], errs + Rejected(xs, reqs))
  {
    var bad := if RunLifecycle(xs[0], reqs[0]).invalid then [xs[0]] else [];
    assert xs[1..][Min(|reqs| - 1, |xs| - 1)..] == xs[Min(|reqs|, |xs|)..];
    assert Rejected(xs, reqs) == bad + Rejected(xs[1..], reqs[1..]);
    assert errs + bad + Rejected(xs[1..], reqs[1..]) == errs + Rejected(xs, reqs);
  }

  /** Reindexing step of the induction above: the answers to the remaining requests, shifted by one. */
  lemma ShiftAnswers(xs: seq<Expectation>, reqs: seq<Request>, first: Outcome, ts: seq<Outcome>)
    requires |xs| > 0 && |reqs| > 0 && |ts| == |reqs| - 1
    requires first == Answer(RunLifecycle(xs[0], reqs[0]))
    requires forall k :: 0 <= k < |reqs| - 1 ==>
      ts[k] == if k < |xs| - 1 then Answer(RunLifecycle(xs[1..][k], reqs[1..][k])) else NotFound
    ensures forall k :: 0 <= k < |reqs| ==>
      ([first] + ts)[k] == if k < |xs| then Answer(RunLifecycle(xs[k], reqs[k])) else NotFound
  {
    forall k | 1 <= k < |reqs|
      ensures ([first] + ts)[k] == if k < |xs| then Answer(RunLifecycle(xs[k], reqs[k])) else NotFound
    {
      assert ([first] + ts)[k] == ts[k - 1];
      if k < |xs| {
        assert xs[1..][k - 1] == xs[k] && reqs[1..][k - 1] == reqs[k];
      }
    }
  }

  /** The one-shot hypothesis carries over to the remaining entries and requests. */
  lemma OneShotsTail(xs: seq<Expectation>, reqs: seq<Request>)
    requires |xs| > 0 && |reqs| > 0
    requires forall k :: 0 <= k < |xs| && k < |reqs| ==> OneShotFor(xs[k], reqs[k])
    ensures forall k :: 0 <= k < |xs| - 1 && k < |reqs| - 1 ==> OneShotFor(xs[1..][k], reqs[1..][k])
  {
    forall k | 0 <= k < |xs| - 1 && k < |reqs| - 1
      ensures OneShotFor(xs[1..][k], reqs[1..][k])
    {
      assert xs[1..][k] == xs[k + 1] && reqs[1..][k] == reqs[k + 1];
    }
  }

  /** A repeating expectation at the front answers every request and is never removed. */
  lemma {:induction false} RepeatingAnswersEvery(e: Expectation, rest: seq<Expectation>, errs: seq<Expectation>, reqs: seq<Request>)
    requires Repeating(e)
    ensures var (s', os) := Serve(Server([e] + rest, errs), reqs);
      && s'.expectations == [e] + rest
      && forall k :: 0 <= k < |reqs| ==> os[k] == Answer(RunLifecycle(e, reqs[k]))
    decreases |reqs|
  {
    if |reqs| > 0 {
      var xs := [e] + rest;
      var l := RunLifecycle(e, reqs[0]);
      assert AcceptVerdict(xs[0], reqs[0]) == Returned(true);
      assert Scan(xs, reqs[0]) == Matched(0);
      var errs1 := errs + (if l.invalid then [e] else []);
      assert Dispatch(Server(xs, errs), reqs[0]) == (Server(xs, errs1), Handled(l.channel));
      RepeatingAnswersEvery(e, rest, errs1, reqs[1..]);
      var (s', os) := Serve(Server(xs, errs), reqs);
      var (t', ts) := Serve(Server(xs, errs1), reqs[1..]);
      assert s' == t' && os == [Handled(l.channel)] + ts;
      forall k | 1 <= k < |reqs|
        ensures os[k] == Answer(RunLifecycle(e, reqs[k]))
      {
        assert os[k] == ts[k - 1] && reqs[1..][k - 1] == reqs[k];
      }
    }
  }

  /** Once `validate` fails, no further traffic can make it pass again. */
  lemma ValidateNeverRecovers(s: Server, reqs: seq<Request>)
    requires Validate(s).Raised?
    ensures Validate(Serve(s, reqs).0).Raised?
    ensures Validate(s).offenders <= Validate(Serve(s, reqs).0).offenders
  {
  }

  /** Serving requests keeps the registry coherent. */
  lemma {:induction false} ServeCoherent(s: Server, reqs: seq<Request>)
    requires Coherent(s.expectations)
    ensures Coherent(Serve(s, reqs).0.expectations)
    decreases |reqs|
  {
    if |reqs| > 0 {
      DispatchCoherent(s, reqs[0]);
      ServeCoherent(Dispatch(s, reqs[0]).0, reqs[1..]);
    }
  }

  /** Appending an element does not move the first occurrence of an identity already present. */
  lemma FindIndexAppend(xs: seq<Expectation>, e: Expectation, ref: nat)
    requires FindIndex(xs, ref) >= 0
    ensures FindIndex(xs + [e], ref) == FindIndex(xs, ref)
  {
    var i := FindIndex(xs, ref);
    var k := FindIndex(xs + [e], ref);
    assert (xs + [e])[i] == xs[i];
  }

  /** Appending an entry does not change a scan that stops inside the old entries. */
  lemma ScanAppend(xs: seq<Expectation>, e: Expectation, req: Request)
    requires !Scan(xs, req).NoMatch?
    ensures Scan(xs + [e], req) == Scan(xs, req)
  {
    var ys := xs + [e];
    var r := Scan(xs, req);
    var r' := Scan(ys, req);
    assert forall j :: 0 <= j < |xs| ==> ys[j] == xs[j];
    if r'.Matched? || r'.AcceptThrew? {
      assert r'.index == r.index;
    }
  }

  /** Handling an old entry treats an appended entry as a bystander. */
  lemma HandleAppend(s: Server, e: Expectation, i: nat, req: Request)
    requires i < |s.expectations|
    ensures Handle(Expect(s, e), i, req) == (Expect(Handle(s, i, req).0, e), Handle(s, i, req).1)
  {
    var xs := s.expectations;
    var ys := xs + [e];
    assert ys[i] == xs[i];
    var l := RunLifecycle(xs[i], req);
    if l.Completed? && !l.keep {
      var k := FindIndex(xs, xs[i].ref);
      FindIndexAppend(xs, e, xs[i].ref);
      assert Splice(ys, k) == Splice(xs, k) + [e];
    }
  }

  /**
    Registration order is priority: once some registered expectation takes a request,
    registering another one afterwards changes neither the answer nor the registry's
    treatment of the old entries.
   */
  lemma ExpectDoesNotPreempt(s: Server, e: Expectation, req: Request)
    requires !Dispatch(s, req).1.NotFound?
    ensures Dispatch(Expect(s, e), req) == (Expect(Dispatch(s, req).0, e), Dispatch(s, req).1)
  {
    ScanAppend(s.expectations, e, req);
    var r := Scan(s.expectations, req);
    if r.Matched? {
      HandleAppend(s, e, r.index, req);
    }
  }

  /** A request every registered expectation refuses is offered to a later registration alone. */
  lemma ExpectConsultedLast(s: Server, e: Expectation, req: Request)
    requires Dispatch(s, req).1.NotFound?
    ensures Dispatch(Expect(s, e), req).1 == Dispatch(Server([e], s.errors), req).1
  {
    var xs := s.expectations;
    var ys := xs + [e];
    assert forall j :: 0 <= j < |xs| ==> ys[j] == xs[j];
    assert AcceptVerdict(ys[|xs|], req) == AcceptVerdict([e][0], req);
    var r := Scan(ys, req);
    var r1 := Scan([e], req);
    if r.Matched? || r.AcceptThrew? {
      assert r.index == |xs|;
      assert r1.index == 0;
    }
  }
}
