/** The JSON-shaped JavaScript values that travel through the server as request and response bodies. */
module JsValues {

  /** A JSON value. Numbers are modelled as mathematical integers. */
  datatype Value =
    | Null
    | Bool(b: bool)
    | Num(n: int)
    | Str(s: string)
    | Arr(items: seq<Value>)
    | Obj(fields: seq<(string, Value)>)

  /** Values that `===` compares by content; arrays and objects are compared by reference instead. */
  predicate IsPrimitive(v: Value)
  {
    !v.Arr? && !v.Obj?
  }

  /** A key that JavaScript treats as an array index; such keys are re-ordered first inside an object. */
  predicate IndexLike(k: string)
  {
    && |k| > 0
    && (forall i :: 0 <= i < |k| ==> '0' <= k[i] <= '9')
    && (k[0] != '0' || |k| == 1)
  }

  /** The largest integer a JavaScript number holds exactly. */
  const MaxSafeInteger := 0x1F_FFFF_FFFF_FFFF

  /**
    Values that survive printing and re-parsing unchanged: numbers a double holds exactly,
    and objects whose keys are distinct and not index-like (a repeated key keeps only its last
    value, and index-like keys move to the front).
   */
  ghost predicate Canonical(v: Value)
    decreases v
  {
    match v
    case Num(n) => -MaxSafeInteger <= n <= MaxSafeInteger
    case Arr(items) => forall i :: 0 <= i < |items| ==> Canonical(items[i])
    case Obj(fields) =>
      && (forall i, j :: 0 <= i < j < |fields| ==> fields[i].0 != fields[j].0)
      && (forall i :: 0 <= i < |fields| ==> !IndexLike(fields[i].0))
      && (forall i :: 0 <= i < |fields| ==> Canonical(fields[i].1))
    case _ => true
  }
}
