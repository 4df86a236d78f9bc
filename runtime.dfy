/** The pieces of the JavaScript host that the todo core relies on but does not
    define: decoded JSON values, `Date` instants, and the built-in conversions
    `JSON.parse`, `JSON.stringify`, `Date.prototype.toISOString` and
    `new Date(string)`. The conversions are not given a text format here; they
    are passed around as a `Builtins` value, and the only thing the model knows
    about them is the round-trip law `Lawful`. */
module Runtime {

  datatype Option<+T> = None | Some(value: T)

  /** A JavaScript value as `JSON.parse` can produce it, plus `undefined`
      (which `isValidTodos` also accepts as an argument). Objects are maps from
      property name to value; JavaScript's key order is not modelled. */
  datatype Value =
    | JUndefined
    | JNull
    | JBool(b: bool)
    | JNum(n: real)
    | JStr(s: string)
    | JArr(elems: seq<Value>)
    | JObj(fields: map<string, Value>)

  /** A `Date`: either a valid instant in milliseconds or an Invalid Date,
      which is what `new Date(s)` yields for a string it cannot read. */
  datatype Instant = At(ms: int) | InvalidDate

  /** JavaScript's `typeof v === 'object'`: true of arrays, objects and `null`. */
  predicate IsObjectType(v: Value) {
    v.JNull? || v.JArr? || v.JObj?
  }

  /** Property access `v.key`: an own property of an object, else `undefined`
      (arrays and primitives have no property of the names used here). */
  function Prop(v: Value, key: string): (r: Value)
    ensures r != JUndefined ==> v.JObj? && key in v.fields && r == v.fields[key]
    ensures v.JObj? && key in v.fields ==> r == v.fields[key]
  {
    if v.JObj? && key in v.fields then v.fields[key] else JUndefined
  }

  /** A value of the kind a stored todo list is made of: strings, booleans,
      `null`, arrays and objects, with no `undefined` and no number anywhere
      inside it. The round-trip law is only asked of these; a law over all
      reals could not hold, since no map from the reals into finite strings is
      one-to-one. */
  ghost predicate Plain(v: Value) {
    match v
    case JUndefined => false
    case JNum(_) => false
    case JArr(elems) => forall i :: 0 <= i < |elems| ==> Plain(elems[i])
    case JObj(fields) => forall k :: k in fields ==> Plain(fields[k])
    case _ => true
  }

  /** The host's conversions. `parse` returns `None` where `JSON.parse` throws
      a SyntaxError; `toIso` is `toISOString` on a valid instant; `fromIso` is
      `new Date(s)`. */
  datatype Builtins = Builtins(
    parse: string -> Option<Value>,
    stringify: Value -> string,
    toIso: int -> string,
    fromIso: string -> Instant)

  /** What the model assumes of the host: the empty text is not JSON, parsing
      what `stringify` wrote for a plain value gives back the value, and
      `new Date` reads back the instant `toISOString` wrote. */
  ghost predicate Lawful(b: Builtins) {
    && b.parse("") == None
    && (forall v :: Plain(v) ==> b.parse(b.stringify(v)) == Some(v))
    && (forall ms :: b.fromIso(b.toIso(ms)) == At(ms))
  }

  /** Under the law, `stringify` never writes the empty text for a plain value. */
  lemma StringifyNonEmpty(b: Builtins, v: Value)
    requires Lawful(b) && Plain(v)
    ensures b.stringify(v) != ""
  {
  }
}
