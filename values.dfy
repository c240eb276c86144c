/** The JavaScript values that a BitReader accepts and returns, reduced to what
    the reader's data semantics depend on. */
module Values {

  /** One byte of a Node.js Buffer. */
  type Byte = b: int | 0 <= b < 256

  /** An optional argument or a JavaScript `null`. */
  datatype Option<+T> = None | Some(value: T)

  /** The two kinds of exception the reader throws; callers tell them apart by
      their `name` ("TypeError" or "RangeError"), never by their message. */
  datatype Error = TypeError | RangeError

  /** A call that either returns a value or throws. */
  datatype Outcome<+T> = Ok(value: T) | Throw(error: Error)

  /** What `eat`, `peak` and `eatRemaining` hand back: `null`, a Buffer, a
      number decoded from a Buffer, or an array of such chunks. */
  datatype Value = Null | Bytes(bytes: seq<Byte>) | Int(n: int) | Array(items: seq<Value>)

  /** JavaScript truthiness of a returned value: `null` and the number 0 are
      falsy; a Buffer or an array is an object and always truthy, even when empty. */
  predicate Truthy(v: Value)
  {
    match v
    case Null => false
    case Int(n) => n != 0
    case Bytes(_) => true
    case Array(_) => true
  }
}
