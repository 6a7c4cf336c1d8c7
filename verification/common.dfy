/** Vocabulary shared by the serial managers and the route handlers. */
module Common {

  /** An optional value. `None` stands for a JavaScript argument left `undefined`. */
  datatype Option<+T> = None | Some(value: T) {

    /** The value, or `default` when absent: how a JavaScript default parameter behaves. */
    function GetOr(default: T): T {
      match this
      case Some(v) => v
      case None => default
    }
  }

  /** One octet on the serial wire. */
  type Byte = b: int | 0 <= b < 256

  function Max(a: int, b: int): int {
    if a < b then b else a
  }
}
