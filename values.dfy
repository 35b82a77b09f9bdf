/**
 * JavaScript values as the component's type checks see them, and the small
 * wrapper types shared by the rest of the model.
 */
module Values {

  /** An octet: the element of a Node Buffer, an ArrayBuffer or a Uint8Array. */
  type byte = x: int | 0 <= x < 256

  datatype Option<+T> = None | Some(value: T)

  /** A value, or the error a JavaScript `throw` would have carried. */
  datatype Result<+T, +E> = Ok(value: T) | Failure(error: E)

  /**
   * The JavaScript values that reach `typeof` checks and truthiness tests.
   * Numbers are integral: the millisecond clock and the configured timeout
   * never carry fractions in this model.
   */
  datatype JsValue =
    | Undefined
    | Null
    | Boolean(b: bool)
    | Number(n: int)
    | Str(s: string)
    | Binary(bytes: seq<byte>)          // an ArrayBuffer or Buffer
    | Function(name: string)
    | Object(props: map<string, JsValue>)

  /** The `typeof` operator (note `typeof null === "object"`). */
  function TypeOf(v: JsValue): string {
    match v
    case Undefined => "undefined"
    case Null => "object"
    case Boolean(_) => "boolean"
    case Number(_) => "number"
    case Str(_) => "string"
    case Binary(_) => "object"
    case Function(_) => "function"
    case Object(_) => "object"
  }

  /** JavaScript truthiness, as in `if (opts.path)`. */
  predicate Truthy(v: JsValue) {
    match v
    case Undefined => false
    case Null => false
    case Boolean(b) => b
    case Number(n) => n != 0
    case Str(s) => s != ""
    case _ => true
  }
}
