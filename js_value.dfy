/**
 * JSON values as a socket.io handler receives them, and the two JavaScript
 * conversions the handlers apply to them: truthiness and conversion to a
 * string (by `+` or by a `textContent` assignment).
 */
module JsValue {
  import opened Wrappers
  import opened JsString

  /**
   * A value parsed from JSON. Of an object only the three properties the
   * handlers read are kept (`None` is a missing property, read as
   * `undefined`), together with whether it has an own `toString` property.
   * JSON cannot carry a function, so such a property is never callable.
   */
  datatype Json =
    | Null
    | Bool(b: bool)
    | Number(n: real)
    | Str(s: JsStr)
    | Array(elems: seq<Json>)
    | Object(user: Option<Json>, text: Option<Json>, system: Option<Json>, ownToString: bool)

  /** JavaScript truthiness of a property value; a missing property is `undefined`, so falsy. */
  predicate JsTruthy(v: Option<Json>) {
    match v
    case None => false
    case Some(Null) => false
    case Some(Bool(b)) => b
    case Some(Number(n)) => n != 0.0
    case Some(Str(s)) => s != []
    case Some(Array(_)) => true
    case Some(Object(_, _, _, _)) => true
  }

  /**
   * Converting `v` to a string does not throw. Primitives always convert.
   * An object converts through the inherited `Object.prototype.toString`
   * unless an own, non-callable `toString` hides it (its `valueOf` returns
   * the object itself, no primitive); then the conversion throws a
   * TypeError. An array converts by `join`: a `null` element gives the empty
   * string, any other element is converted in turn.
   */
  predicate ConvertsToString(v: Json)
    decreases v
  {
    match v
    case Object(_, _, _, ownToString) => !ownToString
    case Array(elems) => forall i :: 0 <= i < |elems| ==> ConvertsToString(elems[i])
    case _ => true
  }

  /** The same for a property that may be missing: `undefined` converts to "undefined". */
  predicate PropertyConverts(v: Option<Json>) {
    v.None? || ConvertsToString(v.value)
  }

  /** An object whose own `toString` is not callable cannot be converted, nor can an array holding one. */
  lemma HiddenToStringThrows(user: Option<Json>, text: Option<Json>, system: Option<Json>)
    ensures !ConvertsToString(Object(user, text, system, true))
    ensures !ConvertsToString(Array([Null, Object(user, text, system, true)]))
  {
    assert [Null, Object(user, text, system, true)][1] == Object(user, text, system, true);
  }
}
