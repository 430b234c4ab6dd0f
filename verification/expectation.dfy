/**
  An expectation: a rule registered by a test, made of up to four optional handlers
  (`accept`, `valid`, `respond`, `repeat`), and the lifecycle that runs it once it has
  accepted a request.
 */
module Expectations {
  import opened Basics
  import opened JsValues
  import opened BodyCollector

  type Headers = seq<(string, string)>

  /** An inbound request whose body has already been collected. */
  datatype Request = Request(httpMethod: string, url: string, headers: Headers, body: Body)

  /** A status line and headers, as written by `writeHead`. */
  datatype Head = Head(status: int, headers: Headers)

  /**
    What a `respond` handler does: the head it wrote on the response itself, if any,
    and the value it returned (`None` for `undefined`).
   */
  datatype Reaction = Reaction(head: Option<Head>, returned: Option<Value>)

  /** The response channel once the engine has finished with it: the head written, and the JSON body the engine wrote. */
  datatype Channel = Channel(head: Option<Head>, json: Option<Value>)

  /**
    A registered expectation. `ref` is the object's identity: two entries with the same
    `ref` are the same JavaScript object registered twice.
   */
  datatype Expectation = Expectation(
    ref: nat,
    accept: Option<Request -> Attempt<bool>>,
    valid: Option<Request -> Attempt<bool>>,
    respond: Option<Request -> Attempt<Reaction>>,
    repeat: Option<Channel -> Attempt<bool>>)

  /** The status the transport sends when nobody wrote a head. */
  const DefaultStatus := 200

  /** `_acceptableExpectation`: an absent `accept` never accepts; a present one decides, or throws. */
  function AcceptVerdict(e: Expectation, req: Request): (r: Attempt<bool>)
    ensures e.accept.None? ==> r == Returned(false)
    ensures e.accept.Some? ==> r == e.accept.value(req)
  {
    if e.accept.None? then Returned(false) else e.accept.value(req)
  }

  /** An absent `valid` always holds. */
  function ValidVerdict(e: Expectation, req: Request): Attempt<bool>
  {
    if e.valid.None? then Returned(true) else e.valid.value(req)
  }

  /** An absent `respond` writes nothing and returns `undefined`. */
  function RespondVerdict(e: Expectation, req: Request): Attempt<Reaction>
  {
    if e.respond.None? then Returned(Reaction(None, None)) else e.respond.value(req)
  }

  /** An absent `repeat` makes the expectation one-shot. */
  function RepeatVerdict(e: Expectation, ch: Channel): Attempt<bool>
  {
    if e.repeat.None? then Returned(false) else e.repeat.value(ch)
  }

  /** The engine serialises a returned value as the JSON body; `undefined` writes nothing. */
  function Written(r: Reaction): (ch: Channel)
    ensures ch.json.Some? <==> r.returned.Some?
    ensures ch.json == r.returned && ch.head == r.head
  {
    Channel(r.head, r.returned)
  }

  /** The status the client receives from a channel. */
  function ChannelStatus(ch: Channel): (status: int)
    ensures ch.head.None? ==> status == DefaultStatus
    ensures ch.head.Some? ==> status == ch.head.value.status
  {
    if ch.head.Some? then ch.head.value.status else DefaultStatus
  }

  /**
    The result of running an accepted expectation. `invalid` records that `valid` returned
    false, which happens before anything else can throw. `Completed` carries the channel
    and whether `repeat` asked to keep the expectation registered.
   */
  datatype Lifecycle =
    | Crashed(invalid: bool)
    | Completed(invalid: bool, channel: Channel, keep: bool)

  /** Validity check, then response, then repeat decision, in that order. */
  function RunLifecycle(e: Expectation, req: Request): (l: Lifecycle)
    // an error is recorded exactly when a present `valid` returns false
    ensures l.invalid <==> e.valid.Some? && e.valid.value(req) == Returned(false)
    // a throw anywhere makes the run crash
    ensures e.valid.Some? && e.valid.value(req).Threw? ==> l.Crashed?
    ensures e.respond.Some? && e.respond.value(req).Threw? ==> l.Crashed?
    ensures l.Crashed? ==>
      || ValidVerdict(e, req).Threw?
      || RespondVerdict(e, req).Threw?
      || RepeatVerdict(e, Written(RespondVerdict(e, req).value)).Threw?
    // a JSON body is written only when `respond` exists and returns a defined value
    ensures l.Completed? ==>
      (l.channel.json.Some? <==> e.respond.Some? && e.respond.value(req).value.returned.Some?)
    ensures l.Completed? && e.respond.None? ==> l.channel == Channel(None, None)
    ensures l.Completed? && e.respond.Some? ==>
      l.channel == Channel(e.respond.value(req).value.head, e.respond.value(req).value.returned)
    // the expectation is kept only when a present `repeat` returns true
    ensures l.Completed? ==> (l.keep <==> e.repeat.Some? && e.repeat.value(l.channel) == Returned(true))
    ensures l.Completed? ==> RepeatVerdict(e, l.channel).Returned?
  {
    match ValidVerdict(e, req)
    case Threw => Crashed(false)
    case Returned(ok) =>
      match RespondVerdict(e, req)
      case Threw => Crashed(!ok)
      case Returned(reaction) =>
        var ch := Written(reaction);
        match RepeatVerdict(e, ch)
        case Threw => Crashed(!ok)
        case Returned(keep) => Completed(!ok, ch, keep)
  }
}
