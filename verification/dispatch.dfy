/**
  The dispatcher: one request is one atomic step. The body is collected, the registry is
  scanned in registration order for the first expectation whose `accept` is present and
  returns true, and that expectation's lifecycle runs; with no acceptor the engine answers
  its own 404, and any throw (or a body read error) makes it answer its own 500. A matched
  expectation may still write 404 or 500 itself; that response is `Handled`.
 */
module Dispatcher {
  import opened Basics
  import opened BodyCollector
  import opened Expectations
  import opened Registry

  /** The result of scanning the registry: the first acceptor, no acceptor, or the position whose `accept` threw. */
  datatype ScanResult = Matched(index: nat) | NoMatch | AcceptThrew(index: nat)

  /**
    What the client receives. `Handled` responses carry the channel the lifecycle left
    behind, whatever status the handler wrote; `NotFound` and `Failed` are the engine's own
    404 and 500.
   */
  datatype Outcome = Handled(channel: Channel) | NotFound | Failed
  {
    function Status(): int
    {
      match this
      case Handled(ch) => ChannelStatus(ch)
      case NotFound => 404
      case Failed => 500
    }

    /** Whether the engine wrote a JSON body. */
    predicate WroteJson()
    {
      Handled? && channel.json.Some?
    }
  }

  /** Scans `xs` from position `k` on, asking each expectation in turn and stopping at the first that does not refuse. */
  function ScanFrom(xs: seq<Expectation>, req: Request, k: nat): (r: ScanResult)
    requires k <= |xs|
    ensures r.Matched? ==>
      && k <= r.index < |xs|
      && AcceptVerdict(xs[r.index], req) == Returned(true)
      && forall j :: k <= j < r.index ==> AcceptVerdict(xs[j], req) == Returned(false)
    ensures r.AcceptThrew? ==>
      && k <= r.index < |xs|
      && AcceptVerdict(xs[r.index], req).Threw?
      && forall j :: k <= j < r.index ==> AcceptVerdict(xs[j], req) == Returned(false)
    ensures r.NoMatch? <==> forall j :: k <= j < |xs| ==> AcceptVerdict(xs[j], req) == Returned(false)
    decreases |xs| - k
  {
    if k == |xs| then NoMatch
    else
      match AcceptVerdict(xs[k], req)
      case Threw => AcceptThrew(k)
      case Returned(true) => Matched(k)
      case Returned(false) => ScanFrom(xs, req, k + 1)
  }

  function Scan(xs: seq<Expectation>, req: Request): ScanResult
  {
    ScanFrom(xs, req, 0)
  }

  /** The `for … of` loop with `continue` and `break`, written as a loop. */
  method FindAcceptor(xs: seq<Expectation>, req: Request) returns (r: ScanResult)
    ensures r == Scan(xs, req)
  {
    var k := 0;
    while k < |xs|
      invariant 0 <= k <= |xs|
      invariant forall j :: 0 <= j < k ==> AcceptVerdict(xs[j], req) == Returned(false)
    {
      var verdict := AcceptVerdict(xs[k], req);
      if verdict.Threw? {
        return AcceptThrew(k);
      } else if verdict.value {
        return Matched(k);
      }
      k := k + 1;
    }
    return NoMatch;
  }

  /** The answer a lifecycle produces: a crash answers 500. */
  function Answer(l: Lifecycle): (o: Outcome)
    ensures o.Failed? <==> l.Crashed?
    ensures l.Completed? ==> o.Status() == ChannelStatus(l.channel) && (o.WroteJson() <==> l.channel.json.Some?)
  {
    match l
    case Crashed(_) => Failed
    case Completed(_, ch, _) => Handled(ch)
  }

  /** Runs the lifecycle of the expectation at `i` and applies it to the registry. */
  function Handle(s: Server, i: nat, req: Request): (r: (Server, Outcome))
    requires i < |s.expectations|
    ensures !r.1.NotFound?
    ensures r.0.errors == s.errors + (if RunLifecycle(s.expectations[i], req).invalid then [s.expectations[i]] else [])
    ensures r.1 == Answer(RunLifecycle(s.expectations[i], req))
    ensures r.1.Failed? ==> r.0.expectations == s.expectations
  {
    var e := s.expectations[i];
    var l := RunLifecycle(e, req);
    var errors := if l.invalid then s.errors + [e] else s.errors;
    match l
    case Crashed(_) => (Server(s.expectations, errors), Failed)
    case Completed(_, ch, keep) =>
      var xs := if keep then s.expectations else RemoveByIdentity(s.expectations, e);
      (Server(xs, errors), Handled(ch))
  }

  /** One dispatch of a request whose body has been collected. */
  function Dispatch(s: Server, req: Request): (r: (Server, Outcome))
    // the engine's own 404 exactly when every expectation refuses, and then nothing changes
    ensures r.1.NotFound? <==> forall j :: 0 <= j < |s.expectations| ==> AcceptVerdict(s.expectations[j], req) == Returned(false)
    ensures r.1.NotFound? ==> r.0 == s
    // a crash (the engine's own 500) never touches the expectation list
    ensures r.1.Failed? ==> r.0.expectations == s.expectations
    // the error log only grows, by at most one entry
    ensures s.errors <= r.0.errors && |r.0.errors| <= |s.errors| + 1
    // at most one expectation is removed
    ensures |r.0.expectations| == |s.expectations| || |r.0.expectations| == |s.expectations| - 1
  {
    match Scan(s.expectations, req)
    case NoMatch => (s, NotFound)
    case AcceptThrew(_) => (s, Failed)
    case Matched(i) =>
      var r := Handle(s, i, req);
      assert |r.0.expectations| == |s.expectations| || |r.0.expectations| == |s.expectations| - 1 by {
        if r.1.Handled? && !RunLifecycle(s.expectations[i], req).keep {
          var k := FindIndex(s.expectations, s.expectations[i].ref);
          assert 0 <= k <= i;
        }
      }
      r
  }

  /** An inbound request as the transport delivers it, before its body is collected. */
  datatype Incoming = Incoming(httpMethod: string, url: string, headers: Headers, payload: Payload)

  /** `_handleRequest`: collect the body, then dispatch; a read error answers 500 and changes nothing. */
  function HandleRequest(s: Server, inc: Incoming, parse: Parser): (r: (Server, Outcome))
    ensures inc.payload.ReadFailed? ==> r == (s, Failed)
    ensures inc.payload.Received? ==>
      r == Dispatch(s, Request(inc.httpMethod, inc.url, inc.headers, Decode(inc.payload.text, parse)))
  {
    match Collect(inc.payload, parse)
    case Threw => (s, Failed)
    case Returned(body) => Dispatch(s, Request(inc.httpMethod, inc.url, inc.headers, body))
  }

  /**
    First match: when the expectation at `i` is the first one that does not refuse and it
    accepts, the request is answered by its lifecycle, the error log records it exactly when
    its `valid` failed, and it alone is removed unless `repeat` keeps it.
   */
  lemma DispatchFirstAcceptor(s: Server, req: Request, i: nat)
    requires Coherent(s.expectations)
    requires i < |s.expectations|
    requires AcceptVerdict(s.expectations[i], req) == Returned(true)
    requires forall j :: 0 <= j < i ==> AcceptVerdict(s.expectations[j], req) == Returned(false)
    ensures var (s', o) := Dispatch(s, req);
      var xs := s.expectations;
      var l := RunLifecycle(xs[i], req);
      && s'.errors == s.errors + (if l.invalid then [xs[i]] else [])
      && o == Answer(l)
      && (l.Crashed? ==> s'.expectations == xs)
      && (l.Completed? && l.keep ==> s'.expectations == xs)
      && (l.Completed? && !l.keep ==> s'.expectations == xs[..i] + xs[i + 1..])
  {
    var xs := s.expectations;
    var r := Scan(xs, req);
    assert r == Matched(i) by {
      if r.Matched? {
        assert r.index == i;
      }
    }
    if RunLifecycle(xs[i], req).Completed? && !RunLifecycle(xs[i], req).keep {
      RemoveByIdentityAt(xs, i);
    }
  }

  /** A throwing `accept` reached by the scan answers 500 and changes nothing. */
  lemma DispatchAcceptThrows(s: Server, req: Request, i: nat)
    requires i < |s.expectations|
    requires AcceptVerdict(s.expectations[i], req).Threw?
    requires forall j :: 0 <= j < i ==> AcceptVerdict(s.expectations[j], req) == Returned(false)
    ensures Dispatch(s, req) == (s, Failed)
  {
    var r := Scan(s.expectations, req);
    if r.AcceptThrew? {
      assert r.index == i;
    }
  }

  /** Dispatch keeps the registry coherent: it only ever removes an entry. */
  lemma DispatchCoherent(s: Server, req: Request)
    requires Coherent(s.expectations)
    ensures Coherent(Dispatch(s, req).0.expectations)
  {
    var r := Scan(s.expectations, req);
    if r.Matched? {
      SpliceCoherent(s.expectations, FindIndex(s.expectations, s.expectations[r.index].ref));
    }
  }
}
