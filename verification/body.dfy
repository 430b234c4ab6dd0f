/**
  The body collector: once the whole payload of a request has arrived, it is decoded as JSON
  when the entire text parses, and kept as raw text otherwise. A read error fails the request.
  The JSON parser itself is a parameter of the model.
 */
module BodyCollector {
  import opened Basics
  import opened JsValues

  /** The decoded request body, decided once and consumed uniformly afterwards. */
  datatype Body = Json(value: Value) | Text(text: string)

  /** What the transport delivered for a request: the complete text, or a stream error. */
  datatype Payload = Received(text: string) | ReadFailed

  /** A JSON parser: `None` when the text is not a JSON document (the parser throws). */
  type Parser = string -> Option<Value>

  /** Decodes the complete request text. */
  function Decode(text: string, parse: Parser): (b: Body)
    ensures b.Json? <==> parse(text).Some?
    ensures b.Json? ==> b.value == parse(text).value
    ensures b.Text? ==> b.text == text
  {
    match parse(text)
    case Some(v) => Json(v)
    case None => Text(text)
  }

  /** Collects a request body; a stream error surfaces as a throw. */
  function Collect(payload: Payload, parse: Parser): (r: Attempt<Body>)
    ensures r.Threw? <==> payload.ReadFailed?
    ensures r.Returned? ==> r.value == Decode(payload.text, parse)
  {
    match payload
    case ReadFailed => Threw
    case Received(text) => Returned(Decode(text, parse))
  }

  /**
    A printer whose output the parser reads back exactly (JSON.stringify followed by
    JSON.parse). For the real pair this holds only of canonical values.
   */
  ghost predicate Inverse(stringify: Value -> string, parse: Parser)
  {
    forall v :: Canonical(v) ==> parse(stringify(v)) == Some(v)
  }

  /** A canonical JSON document sent by a client that prints with `stringify` is received as that very value. */
  lemma DecodePrinted(stringify: Value -> string, parse: Parser, v: Value)
    requires Inverse(stringify, parse)
    requires Canonical(v)
    ensures Collect(Received(stringify(v)), parse) == Returned(Json(v))
  {
  }

  /** Text that is not a JSON document is handed over unchanged, so nothing of it is lost. */
  lemma DecodeUnparsable(text: string, parse: Parser)
    requires parse(text).None?
    ensures Collect(Received(text), parse) == Returned(Text(text))
  {
  }
}
