# expect-srv: expectation registry and dispatch engine

A Dafny model of the core of `ExpectSrv`, an in-process mock HTTP server for test suites.
A test registers *expectations*: objects with up to four optional handlers (`accept`,
`valid`, `respond`, `repeat`). For each incoming request the server collects the body. It
then scans the expectations in registration order and hands the request to the first one
whose `accept` is present and returns true. That expectation's lifecycle runs: `valid`,
then `respond`, then `repeat`. The expectation is removed unless `repeat` keeps it. Failed
validity checks are collected in an error log, which `validate` reports later.
`allExpectationsMatched` reports expectations that are still registered.

The state is two sequences, the live expectations and the error log (`Registry.Server`).
Handling one request is one pure, atomic step (`Dispatcher.Dispatch`), because Node runs the
scan, the handling and the removal in one turn once the body has been collected.

Layout:

- `basics.dfy`: `Option` (a JavaScript slot that may be `undefined`) and `Attempt` (a
  handler call that returns or throws).
- `values.dfy`: JSON values.
- `body.dfy`: the body collector. The text becomes JSON if the whole text parses and stays
  raw text otherwise. A read error surfaces as a throw. The JSON parser is a parameter.
- `expectation.dfy`: requests, expectations with optional handler slots, and the lifecycle
  of an accepted expectation.
- `registry.dfy`: the server state, `expect`, removal by identity (`findIndex` + `splice`),
  `validate` and `allExpectationsMatched`. Both are pure functions of the state, so they
  change nothing and repeated calls give the same result.
- `dispatch.dfy`: the ordered scan, the handling step, `_handleRequest`, and the
  first-match lemmas.
- `runs.dfy`: sequences of requests. One-shot expectations are consumed in order, repeating
  ones stay registered, the error log only grows, and registration order is priority.
- `builders.dfy`: `get` and `post`, Node's `writeHead` checks on the configured status and
  headers, and the strict `===` body check.
- `scenarios.dfy`: request sequences taken from the project's own test suite.

Two behaviours of the code a reader may not expect:

- **Status of a matched expectation without `respond`.** Nothing writes a head, so the
  client gets the transport default 200, not 404 (`src/main.js:25-26`; the test
  `spec/expect-srv/generalSpec.js:17-25` expects 200). See `Scenarios.AcceptOnlyAnswers200`.
- **Body check in `post`.** It is strict `===` (`src/main.js:109`), not deep equality. The
  collector builds a fresh value for a JSON array or object, so such a body is never
  identical to the registered one. The test `spec/expect-srv/postSpec.js:81-89` expects
  `validate` to fail even for a structurally identical body. See
  `Builders.PostRejectsStructuredBody`.

Object identity is modelled by a `ref` field on each expectation. Two entries with the same
`ref` are the same object registered twice. `Registry.Coherent` says that entries with the
same `ref` are equal. Under it, removal by identity removes exactly the entry that was
matched. `get` and `post` build a new object each time, so `Builders.Get` and
`Builders.Post` take a `ref` no registered entry has.

## Model

| member | source | states |
|---|---|---|
| BodyCollector.Decode | src/main.js:68-75 | the body is JSON exactly when the parser accepts the whole text, and is then the parsed value; otherwise it is that same raw text |
| BodyCollector.Collect | src/main.js:64-78 | a stream error fails the collection; otherwise the collected body is the decoded text |
| BodyCollector.DecodePrinted | src/main.js:69-71 | when the parser reads back what the printer wrote for every canonical value (safe integers, distinct keys none of which looks like an array index), a printed canonical value arrives as that same JSON value |
| BodyCollector.DecodeUnparsable | src/main.js:72-74 | text the parser rejects is handed to the handlers unchanged |
| Expectations.AcceptVerdict | src/main.js:34-37 | an absent `accept` refuses the request; a present one decides, including by throwing |
| Expectations.Written | src/main.js:46-49 | a JSON body goes out exactly when `respond` returned a defined value, and it is that value; the head is the one `respond` wrote |
| Expectations.ChannelStatus | src/main.js:25-26 | the client gets the status of the head written, or 200 when no head was written |
| Expectations.RunLifecycle | src/main.js:39-55 | an error is recorded iff a present `valid` returns false; a throw by `valid` or `respond` crashes the run; a JSON body is written iff `respond` exists and returns a defined value; the entry is kept iff a present `repeat` returns true |
| Registry.Expect | src/main.js:81-83 | registration appends exactly one entry behind all existing ones and leaves the error log alone |
| Registry.FindIndex | src/main.js:51 | the result is the first position holding that identity, or -1 when none does |
| Registry.Splice | src/main.js:53 | an in-range start removes that one entry and shifts the later ones down; a negative start counts from the end; a start past the end removes nothing |
| Registry.RemoveByIdentityAt | src/main.js:50-54 | in a coherent registry, removing the matched object by identity removes exactly the matched position and keeps the others in order |
| Registry.SpliceCoherent | src/main.js:53 | removal keeps the registry coherent |
| Registry.ExpectCoherent | src/main.js:81-83 | registering an object keeps the registry coherent unless a different object already has its identity |
| Registry.Validate | src/main.js:123-127 | `validate` fails iff the error log is non-empty, reports the whole log, and does not clear it |
| Registry.AllExpectationsMatched | src/main.js:129-133 | `allExpectationsMatched` fails iff some expectation is still registered, and reports them |
| Dispatcher.ScanFrom | src/main.js:19-24 | the scan stops at the first entry whose `accept` throws or returns true; every earlier entry refused (an absent `accept` refuses); no acceptor means every entry refused |
| Dispatcher.FindAcceptor | src/main.js:19-24 | the `for` loop with `continue` and `break` finds the same entry as the recursive scan |
| Dispatcher.Answer | src/main.js:25-31 | a crashed lifecycle answers 500; a completed one answers with its channel's status and writes JSON iff its channel holds a body |
| Dispatcher.Handle | src/main.js:39-55 | handling never gives the not-found outcome (the engine's own 404), though a handler may write 404 itself; the error log gains the matched entry iff its validity check failed; a crash (the engine's own 500) leaves the expectation list unchanged, while a completed run in which the handler wrote 500 itself may remove the entry |
| Dispatcher.Dispatch | src/main.js:17-27 | the not-found outcome (the engine's own 404) arises iff every expectation refuses, and then nothing changes; a matched expectation may still write 404 or 500 itself, and then the state may change; a crash (the engine's own 500) leaves the expectation list unchanged; the error log only grows, by at most one; at most one entry is removed |
| Dispatcher.HandleRequest | src/main.js:15-32 | a body read error answers 500 and changes nothing; otherwise the decoded request is dispatched |
| Dispatcher.DispatchFirstAcceptor | src/main.js:19-54 | the first acceptor answers through its own lifecycle; errors gain it iff `valid` failed; a crash keeps every entry; a completed one-shot removes exactly that entry; a repeat keeps all |
| Dispatcher.DispatchAcceptThrows | src/main.js:28-36 | an `accept` that throws before any acceptor answers 500 and leaves the whole state unchanged |
| Dispatcher.DispatchCoherent | src/main.js:50-54 | dispatch keeps the registry coherent |
| Runs.Serve | src/main.js:8-10 | serving requests in turn yields one outcome per request; the error log only grows and the registry never grows |
| Runs.EmptyRegistryNotFound | src/main.js:25 | with nothing registered every request gets 404 and the state is unchanged |
| Runs.OneShotsConsumed | src/main.js:50-54 | after one-shot expectations answer, exactly the unused ones remain in order; the log gains exactly those whose validity failed, in answer order |
| Runs.OneShotsAllMatched | src/main.js:129-133 | after one-shot expectations have been served, `allExpectationsMatched` passes iff there were at least as many requests as expectations, and otherwise reports exactly the unused ones in registration order |
| Runs.OneShotsAnswerInOrder | spec/expect-srv/generalSpec.js:101-116 | N one-shot expectations answer the first N requests in registration order, each through its own lifecycle, and later requests get 404 |
| Runs.RepeatingAnswersEvery | spec/expect-srv/generalSpec.js:85-99 | an always-accepting expectation whose `repeat` returns true, registered first (at the front of the registry), answers every request and is never removed |
| Runs.ValidateNeverRecovers | src/main.js:41-44 | once `validate` fails, no further traffic makes it pass, and its earlier offenders stay reported |
| Runs.ServeCoherent | src/main.js:50-54 | serving any requests keeps the registry coherent |
| Runs.ScanAppend | src/main.js:19-24 | appending an entry does not change a scan that stops among the old entries |
| Runs.HandleAppend | src/main.js:39-55 | handling an old entry leaves an appended entry in place, at the end |
| Runs.ExpectDoesNotPreempt | src/main.js:81-83 | if an existing expectation takes a request, a later registration changes neither the answer nor what happens to the old entries |
| Runs.ExpectConsultedLast | src/main.js:19-25 | a request every existing expectation refuses is answered as if the new registration were alone |
| Builders.SpecStatus | src/main.js:89 | an undefined or zero `statusCode` falls back to 200; any other value is used as given |
| Builders.ToInt32 | src/main.js:89 | the 32-bit truncation `writeHead` applies to the status yields a signed 32-bit integer congruent to the given one modulo 2^32, and leaves 32-bit values unchanged |
| Builders.WriteHead | src/main.js:89 | `writeHead` throws unless the truncated status lies in 100..999 and every header has a token name and a value of tab, visible ASCII, space or 0x80..0xFF characters; a head it accepts carries the truncated status and the given headers |
| Builders.SpecChannel | src/main.js:89-90 | the response a builder sends carries the configured body, the configured headers and the truncated configured status, which is the status itself within 100..999 |
| Builders.StrictEqualsMeaning | src/main.js:109 | strict equality of the collected body with the expected one holds iff both are the same primitive value; it never holds for an array or object |
| Builders.Get | src/main.js:85-97 | `get` appends exactly one expectation, a fresh object whose identity no registered entry shares, and leaves the rest of the state alone, so a coherent registry stays coherent; it records an error iff the request is not a GET to the path; when `responseSpec` is given and `writeHead` accepts it, the expectation is one-shot and answers every request with the configured response, and otherwise every request is answered 500 |
| Builders.Post | src/main.js:99-112 | `post` appends exactly one expectation, a fresh object, keeping a coherent registry coherent; a POST to the path with no `incomingExpectation` is answered 500 and records nothing; any other request records an error unless it is a POST to the path whose body is strictly equal to `incomingExpectation.body`, and is answered with the configured response when `writeHead` accepts it, or 500 otherwise; with both arguments usable it is one-shot |
| Builders.GetLifecycle | src/main.js:85-97 | a `get` expectation accepts everything and records an error iff the request is not GET /path; with a usable `responseSpec` it answers with that response and is removed, otherwise `respond` throws and the run crashes, keeping the expectation |
| Builders.PostLifecycle | src/main.js:99-112 | a `post` expectation accepts everything; a POST to the path without `incomingExpectation` crashes before recording anything; otherwise it records an error unless path, method POST and strictly equal body all match, then answers and is removed with a usable `responseSpec`, or crashes and stays |
| Builders.BuildersOneShot | src/main.js:85-112 | with a usable `responseSpec` (and, for `post`, an `incomingExpectation`) both builders produce one-shot expectations |
| Builders.PostRejectsStructuredBody | src/main.js:106-110 | a `post` whose expected body is an array or object records an error for every request, however identical the posted body |
| Scenarios.AcceptOnlyAnswers200 | spec/expect-srv/generalSpec.js:17-25 | an expectation with only `accept` answers 200 with no body and is removed |
| Scenarios.RefusingAcceptAnswers404 | spec/expect-srv/generalSpec.js:27-35 | an `accept` returning false leads to 404 with the state unchanged |
| Scenarios.ThrowingAcceptAnswers500 | spec/expect-srv/generalSpec.js:118-126 | an `accept` that throws leads to 500 with the state unchanged |
| Scenarios.AnsweredInRegistrationOrder | spec/expect-srv/generalSpec.js:101-116 | two always-accepting expectations answer `{seq: 1}` then `{seq: 2}` |
| Scenarios.RepeatTrueKeepsAnswering | spec/expect-srv/generalSpec.js:85-99 | `repeat` returning true answers twice with status 200 and leaves the expectation pending |
| Scenarios.RepeatFalseRemoves | spec/expect-srv/generalSpec.js:69-83 | `repeat` returning false answers once, then 404, and nothing is pending |
| Scenarios.GetAnswersOnce | spec/expect-srv/getSpec.js:17-32 | `get('/path', {body: {ok: true}})` answers GET /path with 200 and the body, then 404; both assertions then pass |
| Scenarios.GetWrongPathFailsValidate | spec/expect-srv/getSpec.js:52-60 | a GET to another path is still answered with the configured response, but `validate` fails afterwards |
| Scenarios.PostIdenticalBodyFailsValidate | spec/expect-srv/postSpec.js:81-89 | a POST whose body is structurally identical to the registered object is answered, and `validate` still fails |
| Scenarios.GetBehindRefusingEntry | src/main.js:50-54 | a `get` registered behind an entry that refuses everything answers GET /path with 200 and the body, and it is the entry removed while the refusing one stays |
| Scenarios.HandlerWritten404 | src/main.js:45-55 | a `get` configured with status 404 answers GET /path with a handler-written 404 and the body; this is a handled response, not the not-found outcome, and the entry is removed |
| Scenarios.GetBadStatusAnswers500 | src/main.js:85-97 | `get('/path', {statusCode: 42})` answers a GET to /path with 500, and the expectation is still pending |
| Scenarios.GetWithoutSpecAnswers500 | src/main.js:85-97 | `get('/path')` without a `responseSpec` answers a GET to /path with 500 and changes nothing |
| Scenarios.PostWithoutIncomingAnswers500 | src/main.js:99-112 | `post('/path')` without `incomingExpectation` answers a POST to /path with 500, records no error and keeps the expectation |
| Scenarios.InvalidThenThrowKeepsError | src/main.js:41-54 | a failed validity check followed by a throwing `respond` answers 500; the expectation stays registered and the recorded error stays |

## Left out

- HTTP transport: `http.createServer`, `listen`, `close`, and the wire operations `write` and `end`. This is Node I/O. Of `writeHead`, only the argument checks that make a builder's `respond` throw are modelled. A response is represented only by its outcome: status, head headers, and the JSON body the engine wrote. The doubled `res.end()` after `_sendResponse` is not modelled either.
- Bytes a `respond` handler writes on the response itself (`res.write`). A `Reaction` records only the head the handler wrote and the value it returned.
- A throw after a head or body has already gone out (for example from `repeat` after `_sendResponse`). It is modelled as a plain 500 outcome. What Node does with the second `writeHead` in the `catch` is transport behaviour.
- Stream mechanics of `_collectBody` (data, end and error events, `Buffer.concat`, UTF-8 decoding). The payload arrives as complete text or as a read error.
- The internals of `JSON.parse` and `JSON.stringify`. The parser is a parameter. Values cannot be cyclic or hold BigInts, so serialisation cannot fail.
- JSON numbers are mathematical integers; floating point is not modelled.
- JavaScript truthiness. `accept`, `valid` and `repeat` return booleans.
- Builders.Get: `statusCode` is an integer or absent; `null`, `NaN`, fractions and strings are not represented (for `statusCode || 200`, only absent and 0 are falsy). `headers` is a list of string pairs; non-string values and the array form Node also accepts are not represented, and an absent `headers` is the empty list.
- Builders.Post: the same limits on `responseSpec` as `get`; `incomingExpectation` is either absent or has a `body` field, which may itself be undefined.
- The text of the errors thrown by `validate` and `allExpectationsMatched`. It is built by `Array.join` over objects and carries no information. The model reports the offending expectations instead.
- `src/log.js`: an environment-driven debug print with no effect on behaviour.
- Stateful or re-entrant handlers (for example a `respond` that calls `expect`), and interleaving of concurrent requests. Handlers are pure functions, and each request is dispatched atomically.
- The `findIndex` result -1 and `splice(-1, 1)` are modelled, but dispatch never reaches them, because the matched object is always present.
- Runs.OneShotsAnswerInOrder: assumes that every expectation that answers a request accepts it, does not throw, and is not kept by `repeat`. A throwing handler stops a one-shot from being consumed, and that case is covered per request by Dispatcher.DispatchFirstAcceptor instead.
- Runs.RepeatingAnswersEvery: assumes that the repeating expectation never throws; the throwing case is covered by Dispatcher.DispatchFirstAcceptor.
