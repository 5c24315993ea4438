/** The nullable strings of the source: Console.ReadLine returns null at the
    end of the input stream. */
module Wrappers {

  datatype Option<+T> = None | Some(value: T) {

    /** The value, or `default` for None (the source's `if (x == null) x = d;`). */
    function GetOr(default: T): T {
      match this
      case Some(v) => v
      case None => default
    }
  }
}
